// The index and parameter lists of an identifier, `[…]` and `(…)`, read as lists of expressions.

module ListLaws {
  import opened Outcomes
  import opened Text
  import opened Tokens
  import opened TokenFacts
  import opened Tree
  import opened Expressions
  import opened LolParser
  import opened ExpressionLaws

  /** A list of one expression. */
  lemma SingleExpression(s: string, e: Option<Expr>, y: string)
    requires ReadExpression(s) == Ok(Parsed(e, y)) && Next(CommaSep, y) == None
    ensures ExpressionList(s, []) == Ok(Parsed([e], y))
  {
    assert [] + [e] == [e];
  }

  /** An identifier list put together from its opening punctuation, its expressions and its closing one. */
  lemma ListOfParts(open: Punct, close: char, s: string, x: string, list: seq<Option<Expr>>, y: string, t: string)
    requires Check(Bare(open), s) == Ok(Parsed(open, x)) && ExpressionList(x, []) == Ok(Parsed(list, y))
    requires Check(Spaced(close), y) == Ok(Parsed([close], t))
    ensures IdentifierList(open, close, s) == Ok(Parsed(list, t))
  {
  }

  /** A name right before the closing `]` or `)` is a list of that one name. */
  lemma NameThenCloser(j: string, close: char, t: string)
    requires close == ']' || close == ')'
    requires IsName(j)
    ensures ExpressionList(j + ([close] + t), []) == Ok(Parsed([Some(Name(j))], [close] + t))
  {
    var y := [close] + t;
    assert y[0] == close;
    NameExpression(j, y);
    NoComma(y);
    SingleExpression(j + y, Some(Name(j)), y);
  }

  /** `[j]` or `(j)` right after a key: a list of the one name `j`. */
  lemma OneNameList(open: Punct, close: char, j: string, t: string)
    requires close == ']' || close == ')'
    requires IsName(j)
    ensures IdentifierList(open, close, open + (j + ([close] + t))) == Ok(Parsed([Some(Name(j))], t))
  {
    var y := [close] + t;
    var x := j + y;
    assert Check(Bare(open), open + x) == Ok(Parsed(open, x)) by {
      NextBare(open, x);
    }
    assert ExpressionList(x, []) == Ok(Parsed([Some(Name(j))], y)) by {
      NameThenCloser(j, close, t);
    }
    assert Check(Spaced(close), y) == Ok(Parsed([close], t)) by {
      PunctThen(close, t);
    }
    ListOfParts(open, close, open + x, x, [Some(Name(j))], y, t);
  }
}
