/**
 * The shapes `readExpression` builds: member chains wrap the running expression,
 * binary and logical chains nest to the right, and `a..b`, `a[.b]` (and `a.b`,
 * `a[b]`) give the same node.
 */
module ExpressionLaws {
  import opened Outcomes
  import opened Text
  import opened Tokens
  import opened TokenFacts
  import opened Tree
  import opened Values
  import opened Expressions

  /** What a primary and its member chain can be: no operator at the top. */
  predicate IsOperand(e: Expr) {
    e.Num? || e.Lit? || e.Paren? || e.Attr? || e.Prop? || e.Call?
  }

  /** What `getUnary` can return. */
  predicate IsUnaryLevel(e: Option<Expr>) {
    e.None? || e.value.Unary? || IsOperand(e.value)
  }

  /** What `getBinary` can return: a unary, or a binary whose left side is a unary. */
  predicate IsBinaryLevel(e: Option<Expr>) {
    IsUnaryLevel(e) || (e.value.Binary? && IsUnaryLevel(e.value.left))
  }

  /** What `getLogical` can return: a binary, or a logical whose left side is a binary. */
  predicate IsLogicalLevel(e: Option<Expr>) {
    IsBinaryLevel(e) || (e.value.Logical? && IsBinaryLevel(e.value.left))
  }

  lemma PrimaryShape(s: string)
    ensures var r := GetPrimary(s); r.Ok? && r.value.node.Some? ==> IsOperand(r.value.node.value)
  {
  }

  /** A member access found after `primary` has `primary` inside it. */
  predicate Wraps(r: Result<Parsed<Option<Expr>>>, primary: Expr) {
    r.Ok? && r.value.node.Some? ==>
      (r.value.node.value.Attr? || r.value.node.value.Prop? || r.value.node.value.Call?) &&
      r.value.node.value.primary == primary
  }

  lemma AttrWraps(primary: Expr, s: string)
    ensures var r := GetAttr(primary, s);
      r.Ok? && r.value.node.Some? ==> r.value.node.value.Attr? && r.value.node.value.primary == primary
  {
  }

  lemma PropWraps(primary: Expr, s: string)
    ensures var r := GetProp(primary, s);
      r.Ok? && r.value.node.Some? ==> r.value.node.value.Prop? && r.value.node.value.primary == primary
  {
  }

  lemma CallWraps(primary: Expr, s: string)
    ensures var r := GetCall(primary, s);
      r.Ok? && r.value.node.Some? ==> r.value.node.value.Call? && r.value.node.value.primary == primary
  {
  }

  /** A member step wraps the expression it is given. */
  lemma MemberStepWraps(primary: Expr, s: string)
    ensures Wraps(MemberStep(primary, s), primary)
  {
    AttrWraps(primary, s);
    var a := GetAttr(primary, s);
    if a.Ok? && a.value.node.None? {
      PropWraps(primary, a.value.rest);
      var p := GetProp(primary, a.value.rest);
      if p.Ok? && p.value.node.None? {
        CallWraps(primary, p.value.rest);
      }
    }
  }

  /** The member chain of an operand is an operand. */
  lemma {:induction false} MemberLoopShape(primary: Expr, s: string)
    requires IsOperand(primary)
    ensures MemberLoop(primary, s).Ok? ==> IsOperand(MemberLoop(primary, s).value.node)
    decreases |s|
  {
    var m := MemberStep(primary, s);
    MemberStepWraps(primary, s);
    if m.Ok? && m.value.node.Some? {
      MemberLoopShape(m.value.node.value, m.value.rest);
    }
  }

  lemma MemberShape(s: string)
    ensures var r := GetMember(s); r.Ok? && r.value.node.Some? ==> IsOperand(r.value.node.value)
  {
    PrimaryShape(s);
    var p := GetPrimary(s);
    if p.Ok? && Truthy(p.value.node) {
      MemberLoopShape(p.value.node.value, p.value.rest);
    }
  }

  lemma UnaryShape(s: string)
    ensures GetUnary(s).Ok? ==> IsUnaryLevel(GetUnary(s).value.node)
  {
    var op := Next(UnaryOp, s);
    MemberShape(if op.Some? then op.value.rest else s);
  }

  /**
   * Binary chains nest to the right: the left operand of a binary is never a binary.
   * SubtractionNestsRight shows the consequence on `1-2-3`.
   */
  lemma {:induction false} BinaryRightNested(s: string)
    ensures GetBinary(s).Ok? ==> IsBinaryLevel(GetBinary(s).value.node)
    decreases |s|
  {
    UnaryShape(s);
  }

  /** Logical chains nest to the right in the same way, above the binary ones. */
  lemma {:induction false} LogicalRightNested(s: string)
    ensures GetLogical(s).Ok? ==> IsLogicalLevel(GetLogical(s).value.node)
    decreases |s|
  {
    BinaryRightNested(s);
  }

  /** After `?`, with or without whitespace after it, and the first branch, a missing `:` is a syntax error. */
  lemma ConditionalNeedsColon(s: string, m: string, q: string, ifTrue: Option<Expr>, t: string)
    requires GetLogical(s).Ok? && Next(Question, GetLogical(s).value.rest) == Some(Parsed(m, q))
    requires GetConditional(q) == Ok(Parsed(ifTrue, t))
    requires Next(ColonSep, t) == None
    ensures GetConditional(s) == Err(SyntaxError)
  {
  }

  /** A falsy primary (`0`, `''` or nothing) makes the member `null`, its chain unread. */
  lemma FalsyPrimaryMember(s: string)
    requires GetPrimary(s).Ok? && !Truthy(GetPrimary(s).value.node)
    ensures GetMember(s) == Ok(Parsed(None, GetPrimary(s).value.rest))
  {
  }

  /** Neither punctuation of a selector: nothing is read. */
  lemma NoSelector(dotted: Punct, bracket: Punct, x: string)
    requires Next(Bare(dotted), x) == None && Next(Bare(bracket), x) == None
    ensures Selector(dotted, bracket, x) == Ok(Parsed(None, x))
  {
  }

  /** None of `..`, `[.`, `.`, `[`, `(`: the member chain ends without reading anything. */
  lemma NoMemberStep(primary: Expr, x: string)
    requires Next(Bare(".."), x) == None && Next(Bare("[."), x) == None
    requires Next(Bare("."), x) == None && Next(Bare("["), x) == None
    requires Next(Bare("("), x) == None
    ensures MemberStep(primary, x) == Ok(Parsed(None, x))
  {
    NoSelector("..", "[.", x);
    assert GetAttr(primary, x) == Ok(Parsed(None, x));
    NoSelector(".", "[", x);
    assert GetProp(primary, x) == Ok(Parsed(None, x));
  }

  /** Whitespace before the punctuation of a member access ends the chain there. */
  lemma MemberNoLeadingSpace(primary: Expr, w: string, s: string)
    requires w != [] && AllSpace(w)
    ensures MemberStep(primary, w + s) == Ok(Parsed(None, w + s))
  {
    BareRejectsLeadingSpace("..", w, s);
    BareRejectsLeadingSpace("[.", w, s);
    BareRejectsLeadingSpace(".", w, s);
    BareRejectsLeadingSpace("[", w, s);
    BareRejectsLeadingSpace("(", w, s);
    NoMemberStep(primary, w + s);
  }

  /** A text at which an expression ends: nothing, a closing bracket or brace, or a comma. */
  predicate EndsExpression(y: string) {
    y == [] || y[0] == ']' || y[0] == ')' || y[0] == ',' || y[0] == '}'
  }

  /** No operator and no member access starts where an expression ends. */
  lemma NothingFollows(y: string)
    requires EndsExpression(y)
    ensures Next(BinaryOp, y) == None && Next(LogicalOp, y) == None && Next(Question, y) == None
  {
    MissAtStart(BinaryOp, y);
    MissAtStart(LogicalOp, y);
    MissAtStart(Question, y);
  }

  lemma NoMemberAtEnd(primary: Expr, y: string)
    requires EndsExpression(y)
    ensures MemberStep(primary, y) == Ok(Parsed(None, y))
  {
    NoBareAt("..", y);
    NoBareAt("[.", y);
    NoBareAt(".", y);
    NoBareAt("[", y);
    NoBareAt("(", y);
    NoMemberStep(primary, y);
  }

  lemma BinaryOfUnary(s: string, e: Option<Expr>, y: string)
    requires GetUnary(s) == Ok(Parsed(e, y)) && Next(BinaryOp, y) == None
    ensures GetBinary(s) == Ok(Parsed(e, y))
  {
  }

  lemma LogicalOfBinary(s: string, e: Option<Expr>, y: string)
    requires GetBinary(s) == Ok(Parsed(e, y)) && Next(LogicalOp, y) == None
    ensures GetLogical(s) == Ok(Parsed(e, y))
  {
  }

  lemma ConditionalOfLogical(s: string, e: Option<Expr>, y: string)
    requires GetLogical(s) == Ok(Parsed(e, y)) && Next(Question, y) == None
    ensures ReadExpression(s) == Ok(Parsed(e, y))
  {
  }

  /** A unary followed by the end of the expression is the whole expression. */
  lemma UnaryIsExpression(s: string, e: Option<Expr>, y: string)
    requires GetUnary(s) == Ok(Parsed(e, y)) && EndsExpression(y)
    ensures ReadExpression(s) == Ok(Parsed(e, y))
  {
    NothingFollows(y);
    BinaryOfUnary(s, e, y);
    LogicalOfBinary(s, e, y);
    ConditionalOfLogical(s, e, y);
  }

  /** A bare name is a primary: the same plain string a literal gives. */
  lemma NamePrimary(k: string, y: string)
    requires IsName(k) && (y == [] || !IsWord(y[0]))
    ensures GetPrimary(k + y) == Ok(Parsed(Some(Name(k)), y))
  {
    var s := k + y;
    assert s[0] == k[0];
    NoPunct('(', s);
    MissAtStart(Number, s);
    ValueBeginAtStart(s);
    NextName(k, y);
  }

  lemma MemberOfPrimary(s: string, e: Expr, y: string)
    requires GetPrimary(s) == Ok(Parsed(Some(e), y)) && Truthy(Some(e))
    requires MemberLoop(e, y) == Ok(Parsed(e, y))
    ensures GetMember(s) == Ok(Parsed(Some(e), y))
  {
  }

  lemma UnaryOfMember(s: string, e: Option<Expr>, y: string)
    requires GetMember(s) == Ok(Parsed(e, y)) && Next(UnaryOp, s) == None
    ensures GetUnary(s) == Ok(Parsed(e, y))
  {
  }

  lemma EndOfChain(e: Expr, y: string)
    requires MemberStep(e, y) == Ok(Parsed(None, y))
    ensures MemberLoop(e, y) == Ok(Parsed(e, y))
  {
  }

  lemma NameStart(k: string, y: string)
    requires IsName(k)
    ensures k + y != [] && (k + y)[0] == k[0] && IsLetter((k + y)[0])
  {
  }

  /** A bare name followed by the end of an expression is a member without accesses. */
  lemma NameMember(k: string, y: string)
    requires IsName(k) && EndsExpression(y)
    ensures GetMember(k + y) == Ok(Parsed(Some(Name(k)), y))
  {
    NamePrimary(k, y);
    NoMemberAtEnd(Name(k), y);
    EndOfChain(Name(k), y);
    MemberOfPrimary(k + y, Name(k), y);
  }

  lemma NameNoUnary(k: string, y: string)
    requires IsName(k)
    ensures Next(UnaryOp, k + y) == None
  {
    NameStart(k, y);
    MissAtStart(UnaryOp, k + y);
  }

  /** A bare name on its own is read as an expression. */
  lemma NameExpression(k: string, y: string)
    requires IsName(k) && EndsExpression(y)
    ensures ReadExpression(k + y) == Ok(Parsed(Some(Name(k)), y))
  {
    var s := k + y;
    NameMember(k, y);
    NameNoUnary(k, y);
    UnaryOfMember(s, Some(Name(k)), y);
    UnaryIsExpression(s, Some(Name(k)), y);
  }

  /** A selector spelled with its dotted punctuation and a name. */
  lemma DottedSelector(dotted: Punct, bracket: Punct, s: string, x: string, k: string, y: string)
    requires Next(Bare(dotted), s) == Some(Parsed(dotted, x)) && Next(Identifier, x) == Some(Parsed(k, y))
    ensures Selector(dotted, bracket, s) == Ok(Parsed(Some(Name(k)), y))
  {
  }

  /** A selector spelled with its bracket, an expression and `]`. */
  lemma BracketSelector(dotted: Punct, bracket: Punct, s: string, x: string, e: Option<Expr>, z: string, y: string)
    requires Next(Bare(dotted), s) == None && Next(Bare(bracket), s) == Some(Parsed(bracket, x))
    requires ReadExpression(x) == Ok(Parsed(e, z)) && Next(Spaced(']'), z) == Some(Parsed("]", y))
    ensures Selector(dotted, bracket, s) == Ok(Parsed(e, y))
  {
  }

  lemma AttrOfSelector(primary: Expr, s: string, e: Expr, y: string)
    requires Selector("..", "[.", s) == Ok(Parsed(Some(e), y)) && Truthy(Some(e))
    ensures GetAttr(primary, s) == Ok(Parsed(Some(Attr(primary, e)), y))
  {
  }

  lemma PropOfSelector(primary: Expr, s: string, e: Expr, y: string)
    requires Selector(".", "[", s) == Ok(Parsed(Some(e), y)) && Truthy(Some(e))
    ensures GetProp(primary, s) == Ok(Parsed(Some(Prop(primary, e)), y))
  {
  }

  /** `..k` or `.k`: the dotted spelling of a selector. */
  lemma DottedName(dotted: Punct, bracket: Punct, k: string, y: string)
    requires IsName(k) && (y == [] || !IsWord(y[0]))
    ensures Selector(dotted, bracket, dotted + k + y) == Ok(Parsed(Some(Name(k)), y))
  {
    var x := k + y;
    assert dotted + k + y == dotted + x;
    NextBare(dotted, x);
    NextName(k, y);
    DottedSelector(dotted, bracket, dotted + x, x, k, y);
  }

  /** `[.k]` or `[k]`: the bracket spelling of a selector, when the bracket does not begin with the dotted punctuation. */
  lemma BracketName(dotted: Punct, bracket: Punct, k: string, y: string)
    requires IsName(k) && bracket[0] != dotted[0]
    ensures Selector(dotted, bracket, bracket + k + "]" + y) == Ok(Parsed(Some(Name(k)), y))
  {
    var z := "]" + y;
    var x := k + z;
    var s := bracket + x;
    assert bracket + k + "]" + y == s;
    assert s[0] == bracket[0];
    NoBareAt(dotted, s);
    NextBare(bracket, x);
    NameExpression(k, z);
    NextPunct(']', z);
    assert z[1..] == y;
    BracketSelector(dotted, bracket, s, x, Some(Name(k)), z, y);
  }

  lemma NameIsTruthy(k: string)
    requires IsName(k)
    ensures Truthy(Some(Name(k)))
  {
  }

  /** `primary..k` */
  lemma DottedAttr(primary: Expr, k: string, y: string)
    requires IsName(k) && (y == [] || !IsWord(y[0]))
    ensures GetAttr(primary, ".." + k + y) == Ok(Parsed(Some(Attr(primary, Name(k))), y))
  {
    DottedName("..", "[.", k, y);
    NameIsTruthy(k);
    AttrOfSelector(primary, ".." + k + y, Name(k), y);
  }

  /** `primary[.k]` */
  lemma BracketAttr(primary: Expr, k: string, y: string)
    requires IsName(k)
    ensures GetAttr(primary, "[." + k + "]" + y) == Ok(Parsed(Some(Attr(primary, Name(k))), y))
  {
    BracketName("..", "[.", k, y);
    NameIsTruthy(k);
    AttrOfSelector(primary, "[." + k + "]" + y, Name(k), y);
  }

  /** `primary..k` and `primary[.k]` build the same attribute access. */
  lemma AttrSpellingsAgree(primary: Expr, k: string, y: string)
    requires IsName(k) && (y == [] || !IsWord(y[0]))
    ensures GetAttr(primary, ".." + k + y) == GetAttr(primary, "[." + k + "]" + y)
  {
    DottedAttr(primary, k, y);
    BracketAttr(primary, k, y);
  }

  /** `primary.k` */
  lemma DottedProp(primary: Expr, k: string, y: string)
    requires IsName(k) && (y == [] || !IsWord(y[0]))
    ensures GetProp(primary, "." + k + y) == Ok(Parsed(Some(Prop(primary, Name(k))), y))
  {
    DottedName(".", "[", k, y);
    NameIsTruthy(k);
    PropOfSelector(primary, "." + k + y, Name(k), y);
  }

  /** `primary[k]` */
  lemma BracketProp(primary: Expr, k: string, y: string)
    requires IsName(k)
    ensures GetProp(primary, "[" + k + "]" + y) == Ok(Parsed(Some(Prop(primary, Name(k))), y))
  {
    BracketName(".", "[", k, y);
    NameIsTruthy(k);
    PropOfSelector(primary, "[" + k + "]" + y, Name(k), y);
  }

  /** `primary.k` and `primary[k]` build the same property access. */
  lemma PropSpellingsAgree(primary: Expr, k: string, y: string)
    requires IsName(k) && (y == [] || !IsWord(y[0]))
    ensures GetProp(primary, "." + k + y) == GetProp(primary, "[" + k + "]" + y)
  {
    DottedProp(primary, k, y);
    BracketProp(primary, k, y);
  }

  lemma NumberPrimary(s: string, num: string, y: string, v: int)
    requires Next(Spaced('('), s) == None && Next(Number, s) == Some(Parsed(num, y))
    requires ParseInt(num) == v
    ensures GetPrimary(s) == Ok(Parsed(Some(Num(v)), y))
  {
  }

  /** No member access starts right after an operand. */
  lemma NoMemberAfterOperand(e: Expr, y: string)
    requires AfterOperand(y)
    ensures MemberLoop(e, y) == Ok(Parsed(e, y))
  {
    NoBareAt("..", y);
    NoBareAt("[.", y);
    NoBareAt(".", y);
    NoBareAt("[", y);
    NoBareAt("(", y);
    NoMemberStep(e, y);
    EndOfChain(e, y);
  }

  /**
   * A number token other than `0`, with no unary operator in front and no member access
   * after it, is a unary-level expression by itself.
   */
  lemma NumberUnary(s: string, num: string, y: string, v: int)
    requires Next(Spaced('('), s) == None && Next(Number, s) == Some(Parsed(num, y))
    requires ParseInt(num) == v && v != 0 && AfterOperand(y) && Next(UnaryOp, s) == None
    ensures GetUnary(s) == Ok(Parsed(Some(Num(v)), y))
  {
    NumberPrimary(s, num, y, v);
    assert Truthy(Some(Num(v)));
    NoMemberAfterOperand(Num(v), y);
    MemberOfPrimary(s, Num(v), y);
    UnaryOfMember(s, Some(Num(v)), y);
  }

  /** One link of a binary chain: the unary, the operator, and the rest of the chain on its right. */
  lemma BinaryLink(s: string, left: Option<Expr>, y: string, op: string, z: string, right: Option<Expr>, w: string)
    requires GetUnary(s) == Ok(Parsed(left, y)) && Next(BinaryOp, y) == Some(Parsed(op, z))
    requires GetBinary(z) == Ok(Parsed(right, w))
    ensures GetBinary(s) == Ok(Parsed(Some(Binary(left, op, right)), w))
  {
  }

  /** `2-3`: the tail of the example below. */
  lemma TwoMinusThree()
    ensures GetBinary("2-3") == Ok(Parsed(Some(Binary(Some(Num(2)), "-", Some(Num(3)))), ""))
  {
    NumberInThree();
    NumberInTwoMinusThree();
    NoPrefixesIn123();
    OperatorsIn123();
    EndHasNoOperator();
    OperandEndsIn123();
    NumberUnary("3", "3", "", 3);
    BinaryOfUnary("3", Some(Num(3)), "");
    NumberUnary("2-3", "2", "-3", 2);
    BinaryLink("2-3", Some(Num(2)), "-3", "-", "3", Some(Num(3)), "");
  }

  /** `1-2-3` is `1 - (2 - 3)`: the chain nests to the right. */
  lemma SubtractionNestsRight()
    ensures GetBinary("1-2-3") == Ok(Parsed(Some(Binary(Some(Num(1)), "-", Some(Binary(Some(Num(2)), "-", Some(Num(3)))))), ""))
  {
    TwoMinusThree();
    NumberInOneMinusTwoMinusThree();
    NoPrefixesIn123();
    OperatorsIn123();
    OperandEndsIn123();
    NumberUnary("1-2-3", "1", "-2-3", 1);
    BinaryLink("1-2-3", Some(Num(1)), "-2-3", "-", "2-3", Some(Binary(Some(Num(2)), "-", Some(Num(3)))), "");
  }
}
