/**
 * The token patterns of the parser and the cursor primitives `next` and `check`,
 * stated over the text still to be read. One hand-written prefix matcher stands
 * for each regular expression of `parseL20n`.
 */
module Tokens {
  import opened Outcomes
  import opened Text

  /** Punctuation matched without skipping whitespace. */
  type Punct = p: string | |p| > 0 && !IsSpace(p[0]) witness "."

  datatype Token =
    | Identifier        // /^\s*[a-zA-Z]\w*/
    | Number            // /^\s*[0-9]\w*/
    | ColonSep          // /^\s*:\s*/
    | CommaSep          // /^\s*,\s*/
    | StringDelim       // /^\s*('''|"""|['"])/
    | Spaced(c: char)   // /^\s*X/ for one of [ ] { } ( ) < >
    | Bare(p: Punct)    // /^X/ for one of .. [. . [ ( ), no whitespace allowed
    | UnaryOp           // /^\s*[+\-!]/
    | BinaryOp          // /^\s*(==|!=|<=|>=|\+|\-|\*|\/|%)/
    | LogicalOp         // /^\s*(\|\||\&\&)/
    | Question          // /^\s*\?\s*/
    | CommentOpen       // /^\s*\/\*/
    | CommentClose      // /\*\//, searched anywhere in the text

  /** The patterns that begin with `^\s*`. */
  predicate SkipsSpace(t: Token) { !t.Bare? && !t.CommentClose? }

  /** What `re.exec(text)` reports: `match.index` and `match[0].length`. */
  datatype Match = Match(index: nat, len: nat)

  /** The length a pattern takes right after the leading whitespace, or 0 when it does not match there. */
  function TokenLength(t: Token, r: string): nat
    requires SkipsSpace(t)
  {
    match t
    case Identifier => if r != [] && IsLetter(r[0]) then 1 + WordLength(r[1..]) else 0
    case Number => if r != [] && IsDigit(r[0]) then 1 + WordLength(r[1..]) else 0
    case ColonSep => if r != [] && r[0] == ':' then 1 + SpaceLength(r[1..]) else 0
    case CommaSep => if r != [] && r[0] == ',' then 1 + SpaceLength(r[1..]) else 0
    case StringDelim =>
      // the alternatives are tried in order: ''' then """ then a single quote
      if "'''" <= r || "\"\"\"" <= r then 3
      else if r != [] && (r[0] == '\'' || r[0] == '"') then 1
      else 0
    case Spaced(c) => if r != [] && r[0] == c && !IsSpace(c) then 1 else 0
    case UnaryOp => if r != [] && (r[0] == '+' || r[0] == '-' || r[0] == '!') then 1 else 0
    case BinaryOp =>
      if "==" <= r || "!=" <= r || "<=" <= r || ">=" <= r then 2
      else if r != [] && (r[0] == '+' || r[0] == '-' || r[0] == '*' || r[0] == '/' || r[0] == '%') then 1
      else 0
    case LogicalOp => if "||" <= r || "&&" <= r then 2 else 0
    case Question => if r != [] && r[0] == '?' then 1 + SpaceLength(r[1..]) else 0
    case CommentOpen => if "/*" <= r then 2 else 0
  }

  /** `re.exec(text)` for the pattern of `t`. */
  function Exec(t: Token, s: string): (m: Option<Match>)
    ensures m.Some? ==> 0 < m.value.len && m.value.index + m.value.len <= |s|
    ensures m.Some? && t != CommentClose ==> m.value.index == 0
  {
    match t
    case Bare(p) => if p <= s then Some(Match(0, |p|)) else None
    case CommentClose =>
      var j := IndexOf(s, "*/", 0);
      if j.Some? then Some(Match(j.value, 2)) else None
    case _ => ExecSpaced(t, s)
  }

  /** `re.exec(text)` for a pattern that begins with `^\s*`. */
  function ExecSpaced(t: Token, s: string): (m: Option<Match>)
    requires SkipsSpace(t)
    ensures m.Some? ==> 0 < m.value.len <= |s| && m.value.index == 0
  {
    var w := SpaceLength(s);
    TokenLengthBound(t, s[w..]);
    AfterSpace(t, w, s[w..])
  }

  /** A match of the pattern after `w` characters of whitespace, when `r` is the text after them. */
  function AfterSpace(t: Token, w: nat, r: string): Option<Match>
    requires SkipsSpace(t)
  {
    var n := TokenLength(t, r);
    if n == 0 then None else Some(Match(0, w + n))
  }

  lemma TokenLengthBound(t: Token, r: string)
    requires SkipsSpace(t)
    ensures TokenLength(t, r) <= |r|
    ensures TokenLength(t, r) > 0 ==> !IsSpace(r[0])
  {
  }

  /** `reValueBegin.exec(text)`: the last character of the match, which decides what kind of value follows. */
  function ValueBegin(s: string): (c: Option<char>)
    ensures c.Some? ==> c.value in {'\'', '"', '[', '{'}
    ensures c.Some? <==> SpaceLength(s) < |s| && s[SpaceLength(s)] in {'\'', '"', '[', '{'}
  {
    var w := SpaceLength(s);
    if w < |s| && (s[w] == '\'' || s[w] == '"' || s[w] == '[' || s[w] == '{') then Some(s[w]) else None
  }

  /**
   * `next(re)`: on a match, the text up to the end of the match is consumed and
   * `match[0]` is returned without its leading whitespace; otherwise nothing changes.
   */
  function Next(t: Token, s: string): (r: Option<Parsed<string>>)
    ensures r.None? <==> Exec(t, s).None?
    ensures r.Some? ==> |r.value.rest| < |s|
    ensures r.Some? ==> r.value.node != [] && !IsSpace(r.value.node[0])
  {
    match Exec(t, s)
    case None => None
    case Some(m) =>
      var index := m.index + m.len;
      assert s == s[..index] + s[index..];
      var token := StripSpace(s[m.index..index]);
      assert token != [] by { MatchedTextNotBlank(t, s); }
      Some(Parsed(token, s[index..]))
  }

  /** Every pattern needs a character that is not whitespace, so a match never strips down to the empty string. */
  lemma MatchedTextNotBlank(t: Token, s: string)
    requires Exec(t, s).Some?
    ensures var m := Exec(t, s).value; StripSpace(s[m.index..m.index + m.len]) != []
  {
    var m := Exec(t, s).value;
    if SkipsSpace(t) {
      var w := SpaceLength(s);
      TokenLengthBound(t, s[w..]);
      assert w < m.len && !IsSpace(s[w]);
      SpaceLengthOfPrefix(s, m.len);
    } else if t == CommentClose {
      IndexOfFindsFirst(s, "*/", 0);
      assert s[m.index..m.index + m.len] == "*/";
    }
  }

  /** `check(re)`: `next(re)`, with `assert` throwing when the result is falsy (null or ''). */
  function Check(t: Token, s: string): (r: Result<Parsed<string>>)
    ensures r.Err? <==> Next(t, s).None?
    ensures r.Err? ==> r.error == SyntaxError
  {
    var rv := Next(t, s);
    if rv.None? || rv.value.node == "" then Err(SyntaxError) else Ok(rv.value)
  }

  /** `parseInt(num, 10)` on a number token: the value of its leading digits; the word characters after them are ignored. */
  function ParseInt(token: string): nat {
    DigitsValue(token[..DigitLength(token)])
  }

  /** On a match of a `^\s*` pattern, `next` returns the matched text after the whitespace and the text after the match. */
  lemma NextOfSpaced(t: Token, s: string, k: nat, n: nat)
    requires SkipsSpace(t) && ExecSpaced(t, s) == Some(Match(0, n)) && k == SpaceLength(s)
    ensures k < n <= |s|
    ensures Next(t, s) == Some(Parsed(s[k..n], s[n..]))
  {
    ExecIsSpaced(t, s);
    NextOfMatch(t, s, 0, n);
    TokenLengthBound(t, s[k..]);
    assert k < n;
    StripSpaceOfPrefix(s, n);
  }

  /** `next` on a match at `index` of length `len`. */
  lemma NextOfMatch(t: Token, s: string, index: nat, len: nat)
    requires Exec(t, s) == Some(Match(index, len))
    ensures index + len <= |s|
    ensures Next(t, s) == Some(Parsed(StripSpace(s[index..index + len]), s[index + len..]))
  {
    var m := Exec(t, s).value;
    assert m.index == index && m.len == len;
  }

  lemma ExecIsSpaced(t: Token, s: string)
    requires SkipsSpace(t)
    ensures Exec(t, s) == ExecSpaced(t, s)
  {
  }

  /** The tokens `reStringDelim` can return. */
  predicate IsQuote(d: string) {
    d == "'''" || d == "\"\"\"" || d == "'" || d == "\""
  }

  /** A string delimiter is one of the four quote forms. */
  lemma StringDelimToken(s: string)
    requires Next(StringDelim, s).Some?
    ensures IsQuote(Next(StringDelim, s).value.node)
  {
    var w := SpaceLength(s);
    ExecIsSpaced(StringDelim, s);
    var n := ExecSpaced(StringDelim, s).value.len;
    NextOfSpaced(StringDelim, s, w, n);
    SliceOfDrop(s, w, n);
    DelimiterSpelling(s[w..]);
  }

  lemma DelimiterSpelling(r: string)
    requires TokenLength(StringDelim, r) > 0
    ensures IsQuote(r[..TokenLength(StringDelim, r)])
  {
    if "'''" <= r {
      assert r[..3] == "'''";
    } else if "\"\"\"" <= r {
      assert r[..3] == "\"\"\"";
    } else if r[0] == '\'' {
      assert r[..1] == "'";
    } else {
      assert r[..1] == "\"";
    }
  }

  /** The member-access punctuation and the call's `)` are not found behind whitespace. */
  lemma BareRejectsLeadingSpace(p: Punct, w: string, s: string)
    requires w != [] && AllSpace(w)
    ensures Next(Bare(p), w + s) == None
  {
    assert (w + s)[0] == w[0];
  }
}
