/**
 * What `next` does on texts that begin with a known character and no whitespace,
 * which is how the printed forms of values and entities begin.
 */
module TokenFacts {
  import opened Outcomes
  import opened Text
  import opened Tokens

  /** A `^\s*` pattern that matches `n` characters at the very start reads exactly them. */
  lemma NextAtStart(t: Token, s: string, n: nat)
    requires SkipsSpace(t) && (s == [] || !IsSpace(s[0]))
    requires 0 < n == TokenLength(t, s)
    ensures n <= |s|
    ensures Next(t, s) == Some(Parsed(s[..n], s[n..]))
  {
    assert SpaceLength(s) == 0;
    assert s[0..] == s;
    NextOfSpaced(t, s, 0, n);
    assert s[0..n] == s[..n];
  }

  /** A `^\s*` pattern that matches one character at the very start reads it. */
  lemma NextOneAtStart(t: Token, s: string)
    requires SkipsSpace(t) && s != [] && !IsSpace(s[0])
    requires TokenLength(t, s) == 1
    ensures Next(t, s) == Some(Parsed([s[0]], s[1..]))
  {
    NextAtStart(t, s, 1);
    assert s[..1] == [s[0]];
  }

  /** A `^\s*` pattern that does not match at the very start of a text without leading whitespace reads nothing. */
  lemma MissAtStart(t: Token, s: string)
    requires SkipsSpace(t) && (s == [] || !IsSpace(s[0]))
    requires TokenLength(t, s) == 0
    ensures Next(t, s) == None
  {
    assert SpaceLength(s) == 0;
    assert s[0..] == s;
    ExecIsSpaced(t, s);
  }

  /** A bracket or angle token at the start of the text. */
  lemma NextPunct(c: char, s: string)
    requires !IsSpace(c) && s != [] && s[0] == c
    ensures Next(Spaced(c), s) == Some(Parsed([c], s[1..]))
  {
    NextAtStart(Spaced(c), s, 1);
    assert s[..1] == [c];
  }

  /** A text that starts with a letter holds no other punctuation token right at its start. */
  lemma NoPunctAtLetter(c: char, s: string)
    requires s != [] && IsLetter(s[0]) && !IsLetter(c)
    ensures Next(Spaced(c), s) == None
  {
    NoPunct(c, s);
  }

  /** A bracket or angle token is not found in front of another visible character. */
  lemma NoPunct(c: char, s: string)
    requires s == [] || (s[0] != c && !IsSpace(s[0]))
    ensures Next(Spaced(c), s) == None
  {
    MissAtStart(Spaced(c), s);
  }

  /** Punctuation `c` at the very start of the text, for `next` and for `check`. */
  lemma PunctThen(c: char, x: string)
    requires !IsSpace(c)
    ensures Next(Spaced(c), [c] + x) == Some(Parsed([c], x))
    ensures Check(Spaced(c), [c] + x) == Ok(Parsed([c], x))
  {
    var s := [c] + x;
    assert s[1..] == x;
    NextPunct(c, s);
  }

  /** At the `>` that ends an entity no identifier and no value begins. */
  lemma AtCloseAngle(rest: string)
    ensures Next(Identifier, ">" + rest) == None
    ensures Check(Spaced('>'), ">" + rest) == Ok(Parsed(">", rest))
    ensures ValueBegin(">" + rest) == None
  {
    var s := ">" + rest;
    assert s[0] == '>';
    MissAtStart(Identifier, s);
    PunctThen('>', rest);
    ValueBeginAtStart(s);
  }

  /** At the `<` that opens an entity no comment opens. */
  lemma AtOpenAngle(x: string)
    ensures Next(CommentOpen, "<" + x) == None
    ensures Next(Spaced('<'), "<" + x) == Some(Parsed("<", x))
  {
    var s := "<" + x;
    assert s[0] == '<' && !("/*" <= s);
    MissAtStart(CommentOpen, s);
    PunctThen('<', x);
  }

  /** `:` in front of a visible character. */
  lemma ColonThen(x: string)
    requires x == [] || !IsSpace(x[0])
    ensures Check(ColonSep, ":" + x) == Ok(Parsed(":", x))
  {
    var s := ":" + x;
    assert s[1..] == x;
    NextColon(s);
  }

  /** `,` followed by a visible character or by the end of the text. */
  lemma NextComma(s: string)
    requires s != [] && s[0] == ','
    requires |s| == 1 || !IsSpace(s[1])
    ensures Next(CommaSep, s) == Some(Parsed(",", s[1..]))
  {
    CommaLength(s);
    NextOneAtStart(CommaSep, s);
  }

  lemma CommaLength(s: string)
    requires s != [] && s[0] == ','
    requires |s| == 1 || !IsSpace(s[1])
    ensures TokenLength(CommaSep, s) == 1
  {
    var r := s[1..];
    assert r == [] || !IsSpace(r[0]);
    assert SpaceLength(r) == 0;
  }

  /** `:` followed by a visible character or by the end of the text. */
  lemma NextColon(s: string)
    requires s != [] && s[0] == ':'
    requires |s| == 1 || !IsSpace(s[1])
    ensures Next(ColonSep, s) == Some(Parsed(":", s[1..]))
  {
    ColonLength(s);
    NextOneAtStart(ColonSep, s);
  }

  lemma ColonLength(s: string)
    requires s != [] && s[0] == ':'
    requires |s| == 1 || !IsSpace(s[1])
    ensures TokenLength(ColonSep, s) == 1
  {
    var r := s[1..];
    assert r == [] || !IsSpace(r[0]);
    assert SpaceLength(r) == 0;
  }

  /** No comma in front of another visible character. */
  lemma NoComma(s: string)
    requires s == [] || (s[0] != ',' && !IsSpace(s[0]))
    ensures Next(CommaSep, s) == None
  {
    MissAtStart(CommaSep, s);
  }

  /** A run of word characters followed by a non-word character. */
  lemma {:induction false} WordLengthOfWord(w: string, x: string)
    requires forall i :: 0 <= i < |w| ==> IsWord(w[i])
    requires x == [] || !IsWord(x[0])
    ensures WordLength(w + x) == |w|
  {
    if w == [] {
      assert w + x == x;
    } else {
      assert IsWord(w[0]);
      assert (w + x)[1..] == w[1..] + x;
      WordLengthOfWord(w[1..], x);
    }
  }

  /** A name: a letter, then word characters. */
  predicate IsName(k: string) {
    k != [] && IsLetter(k[0]) && forall i :: 0 < i < |k| ==> IsWord(k[i])
  }

  /** An identifier token reads the whole name and stops at the first non-word character. */
  lemma NextName(k: string, x: string)
    requires IsName(k)
    requires x == [] || !IsWord(x[0])
    ensures Next(Identifier, k + x) == Some(Parsed(k, x))
  {
    var s := k + x;
    assert s[0] == k[0];
    assert s[1..] == k[1..] + x;
    WordLengthOfWord(k[1..], x);
    NextAtStart(Identifier, s, |k|);
    assert s[..|k|] == k;
    assert s[|k|..] == x;
  }

  /** A name right before the `[` or `(` that opens its list is an identifier token that stops there. */
  lemma NameThenOpener(k: string, o: string, z: string)
    requires IsName(k) && (o == "[" || o == "(")
    ensures Next(Identifier, k + (o + z)) == Some(Parsed(k, o + z))
    ensures (o + z)[0] == o[0]
  {
    NextName(k, o + z);
  }

  /** Punctuation matched without skipping whitespace reads itself. */
  lemma NextBare(p: Punct, x: string)
    ensures Next(Bare(p), p + x) == Some(Parsed(p, x))
  {
    var s := p + x;
    assert p <= s;
    NextOfMatch(Bare(p), s, 0, |p|);
    assert s[0..|p|] == p;
    assert SpaceLength(p) == 0;
    assert p[0..] == p;
    assert s[|p|..] == x;
  }

  /** Punctuation matched without skipping whitespace is not found at another character. */
  lemma NoBareAt(p: Punct, s: string)
    requires s == [] || s[0] != p[0]
    ensures Next(Bare(p), s) == None
  {
    if |p| <= |s| {
      assert s[..|p|][0] == s[0];
    }
  }

  /** `reValueBegin` at a visible first character. */
  lemma ValueBeginAtStart(s: string)
    requires s == [] || !IsSpace(s[0])
    ensures ValueBegin(s) == if s != [] && s[0] in {'\'', '"', '[', '{'} then Some(s[0]) else None
  {
    assert SpaceLength(s) == 0;
  }

  /** A digit followed by no word character is a whole number token, and `parseInt` gives its value. */
  lemma NextDigit(s: string)
    requires s != [] && IsDigit(s[0]) && (|s| == 1 || !IsWord(s[1]))
    ensures Next(Number, s) == Some(Parsed([s[0]], s[1..]))
    ensures ParseInt([s[0]]) == (s[0] as int) - ('0' as int)
  {
    assert WordLength(s[1..]) == 0;
    NextOneAtStart(Number, s);
    DigitValue(s[0]);
  }

  /** `parseInt` of one digit. */
  lemma DigitValue(d: char)
    requires IsDigit(d)
    ensures ParseInt([d]) == (d as int) - ('0' as int)
  {
    var one := [d];
    assert one[1..] == [];
    assert DigitLength(one) == 1;
    assert one[..1] == one;
    assert one[..|one| - 1] == [];
    assert DigitsValue(one) == 10 * DigitsValue([]) + ((d as int) - ('0' as int));
  }

  /** A text right after an operand where no member access starts and no word goes on. */
  predicate AfterOperand(y: string) {
    y == [] || (!IsWord(y[0]) && y[0] != '.' && y[0] != '[' && y[0] != '(')
  }

  /** No unary operator in front of a digit. */
  lemma NoSignBeforeDigit(s: string)
    requires s != [] && IsDigit(s[0])
    ensures Next(UnaryOp, s) == None
  {
    assert TokenLength(UnaryOp, s) == 0;
    MissAtStart(UnaryOp, s);
  }

  /** `-` in front of a visible character is read as the binary operator `-`. */
  lemma MinusOperator(z: string)
    requires z == [] || !IsSpace(z[0])
    ensures Next(BinaryOp, "-" + z) == Some(Parsed("-", z))
  {
    var y := "-" + z;
    assert y[1..] == z;
    NextOneAtStart(BinaryOp, y);
  }

  /** No binary operator at the end of the text. */
  lemma EndHasNoOperator()
    ensures Next(BinaryOp, []) == None
  {
    var e: string := [];
    assert !("==" <= e) && !("!=" <= e) && !("<=" <= e) && !(">=" <= e);
    assert TokenLength(BinaryOp, e) == 0;
    MissAtStart(BinaryOp, e);
  }

  /** The number and its value at the head of `3`. */
  lemma NumberInThree()
    ensures Next(Number, "3") == Some(Parsed("3", "")) && ParseInt("3") == 3
  {
    NextDigit("3");
    assert "3"[1..] == "" && ["3"[0]] == "3";
  }

  /** The number and its value at the head of `2-3`. */
  lemma NumberInTwoMinusThree()
    ensures Next(Number, "2-3") == Some(Parsed("2", "-3")) && ParseInt("2") == 2
  {
    NextDigit("2-3");
    assert "2-3"[1..] == "-3" && ["2-3"[0]] == "2";
  }

  /** The number and its value at the head of `1-2-3`. */
  lemma NumberInOneMinusTwoMinusThree()
    ensures Next(Number, "1-2-3") == Some(Parsed("1", "-2-3")) && ParseInt("1") == 1
  {
    NextDigit("1-2-3");
    assert "1-2-3"[1..] == "-2-3" && ["1-2-3"[0]] == "1";
  }

  /** Neither `(` nor a unary operator at the head of each operand of `1-2-3`. */
  lemma NoPrefixesIn123()
    ensures Next(Spaced('('), "3") == None && Next(UnaryOp, "3") == None
    ensures Next(Spaced('('), "2-3") == None && Next(UnaryOp, "2-3") == None
    ensures Next(Spaced('('), "1-2-3") == None && Next(UnaryOp, "1-2-3") == None
  {
    NoPunct('(', "3");
    NoSignBeforeDigit("3");
    NoPunct('(', "2-3");
    NoSignBeforeDigit("2-3");
    NoPunct('(', "1-2-3");
    NoSignBeforeDigit("1-2-3");
  }

  /** The two operators of `1-2-3`. */
  lemma OperatorsIn123()
    ensures Next(BinaryOp, "-3") == Some(Parsed("-", "3"))
    ensures Next(BinaryOp, "-2-3") == Some(Parsed("-", "2-3"))
  {
    MinusOperator("3");
    assert "-" + "3" == "-3";
    MinusOperator("2-3");
    assert "-" + "2-3" == "-2-3";
  }

  /** What follows each operand of `1-2-3` continues no member access. */
  lemma OperandEndsIn123()
    ensures AfterOperand("-2-3") && AfterOperand("-3") && AfterOperand("")
  {
  }
}
