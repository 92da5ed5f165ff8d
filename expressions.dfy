/**
 * `readExpression` and its helpers as functions of the text still to be read.
 * The grammar goes primary, member chain, unary, binary, logical, conditional;
 * `null` results are `None`.
 */
module Expressions {
  import opened Outcomes
  import opened Text
  import opened Tokens
  import opened Tree
  import opened Values

  /** `getPrimary`: `( expression )`, a number, a value, a bare name, or `null` without reading anything. */
  function GetPrimary(s: string): (r: Result<Parsed<Option<Expr>>>)
    decreases |s|, 4, 0
    ensures r.Ok? ==> |r.value.rest| <= |s|
    ensures r.Ok? && r.value.node.Some? ==> |r.value.rest| < |s|
  {
    match Next(Spaced('('), s)
    case Some(open) =>
      var e :- ReadExpression(open.rest);
      var close :- Check(Spaced(')'), e.rest);
      Ok(Parsed(Some(Paren(e.node)), close.rest))
    case None =>
      match Next(Number, s)
      case Some(num) => Ok(Parsed(Some(Num(ParseInt(num.node))), num.rest))
      case None =>
        if ValueBegin(s).Some? then
          var v :- ReadValue(s);
          Ok(Parsed(if v.node.Some? then Some(Lit(v.node.value)) else None, v.rest))
        else
          match Next(Identifier, s)
          case Some(id) => Ok(Parsed(Some(Name(id.node)), id.rest))
          case None => Ok(Parsed(None, s))
  }

  /**
   * The `attr` of `getAttr` and the `prop` of `getProp` before their truthiness test:
   * the identifier after `dotted`, the expression after `bracket` and its `]`, or
   * `null` without reading anything when neither punctuation follows.
   */
  function Selector(dotted: Punct, bracket: Punct, s: string): (r: Result<Parsed<Option<Expr>>>)
    decreases |s|, 3, 0
    ensures r.Ok? ==> |r.value.rest| <= |s|
    ensures r.Ok? && r.value.node.Some? ==> |r.value.rest| < |s|
  {
    match Next(Bare(dotted), s)
    case Some(dot) =>
      var id :- Check(Identifier, dot.rest);
      Ok(Parsed(Some(Name(id.node)), id.rest))
    case None =>
      match Next(Bare(bracket), s)
      case Some(open) =>
        var e :- ReadExpression(open.rest);
        var close :- Check(Spaced(']'), e.rest);
        Ok(Parsed(e.node, close.rest))
      case None => Ok(Parsed(None, s))
  }

  /**
   * `getAttr`: `..ID` or `[.expression]` right after the primary. A falsy expression
   * inside `[. ]` gives `null` although the brackets have been read.
   */
  function GetAttr(primary: Expr, s: string): (r: Result<Parsed<Option<Expr>>>)
    decreases |s|, 4, 0
    ensures r.Ok? ==> |r.value.rest| <= |s|
    ensures r.Ok? && r.value.node.Some? ==> |r.value.rest| < |s|
  {
    var attr :- Selector("..", "[.", s);
    Ok(Parsed(if Truthy(attr.node) then Some(Attr(primary, attr.node.value)) else None, attr.rest))
  }

  /**
   * `getProp`: `.ID` or `[expression]` right after the primary. A falsy expression
   * inside `[ ]` gives `null` although the brackets have been read.
   */
  function GetProp(primary: Expr, s: string): (r: Result<Parsed<Option<Expr>>>)
    decreases |s|, 4, 0
    ensures r.Ok? ==> |r.value.rest| <= |s|
    ensures r.Ok? && r.value.node.Some? ==> |r.value.rest| < |s|
  {
    var prop :- Selector(".", "[", s);
    Ok(Parsed(if Truthy(prop.node) then Some(Prop(primary, prop.node.value)) else None, prop.rest))
  }

  /** `getCall`: `(expression, ...)` right after the primary, closed by a `)` with no whitespace before it. */
  function GetCall(primary: Expr, s: string): (r: Result<Parsed<Option<Expr>>>)
    decreases |s|, 4, 0
    ensures r.Ok? ==> |r.value.rest| <= |s|
    ensures r.Ok? && r.value.node.Some? ==> |r.value.rest| < |s|
  {
    match Next(Bare("("), s)
    case Some(open) => CallArguments(primary, open.rest)
    case None => Ok(Parsed(None, s))
  }

  /** The part of `getCall` after its `(`: the arguments and the closing `)`. */
  function CallArguments(primary: Expr, s: string): (r: Result<Parsed<Option<Expr>>>)
    decreases |s|, 14, 0
    ensures r.Ok? ==> |r.value.rest| < |s| && r.value.node.Some?
  {
    var params :- ExpressionList(s, []);
    var close :- Check(Bare(")"), params.rest);
    Ok(Parsed(Some(Call(primary, params.node)), close.rest))
  }

  /**
   * The `do { list.push(readExpression()) } while (next(reCommaSep))` loop shared by
   * `getCall` and `readIdentifier`, after the list holds `acc`; the closer is left to the caller.
   */
  function ExpressionList(s: string, acc: seq<Option<Expr>>): (r: Result<Parsed<seq<Option<Expr>>>>)
    decreases |s|, 13, 0
    ensures r.Ok? ==> |r.value.rest| <= |s| && |r.value.node| > |acc|
  {
    var e :- ReadExpression(s);
    var list := acc + [e.node];
    match Next(CommaSep, e.rest)
    case Some(comma) => ExpressionList(comma.rest, list)
    case None => Ok(Parsed(list, e.rest))
  }

  /** `getAttr(primary) || getProp(primary) || getCall(primary)`: each alternative reads on from where the one before stopped. */
  function MemberStep(primary: Expr, s: string): (r: Result<Parsed<Option<Expr>>>)
    decreases |s|, 5, 0
    ensures r.Ok? ==> |r.value.rest| <= |s|
    ensures r.Ok? && r.value.node.Some? ==> |r.value.rest| < |s|
  {
    var a :- GetAttr(primary, s);
    if a.node.Some? then Ok(a)
    else
      var p :- GetProp(primary, a.rest);
      if p.node.Some? then Ok(p)
      else GetCall(primary, p.rest)
  }

  /** The `while (member)` loop of `getMember`: wrap the running expression until no member access follows. */
  function MemberLoop(primary: Expr, s: string): (r: Result<Parsed<Expr>>)
    decreases |s|, 6, 0
    ensures r.Ok? ==> |r.value.rest| <= |s|
  {
    var m :- MemberStep(primary, s);
    if m.node.Some? then MemberLoop(m.node.value, m.rest)
    else Ok(Parsed(primary, m.rest))
  }

  /** `getMember`: a primary and its member chain; `null` when the primary is falsy. */
  function GetMember(s: string): (r: Result<Parsed<Option<Expr>>>)
    decreases |s|, 7, 0
    ensures r.Ok? ==> |r.value.rest| <= |s|
  {
    var p :- GetPrimary(s);
    if !Truthy(p.node) then Ok(Parsed(None, p.rest))
    else
      var m :- MemberLoop(p.node.value, p.rest);
      Ok(Parsed(Some(m.node), m.rest))
  }

  /** `getUnary`: an optional `+`, `-` or `!` in front of a member. */
  function GetUnary(s: string): (r: Result<Parsed<Option<Expr>>>)
    decreases |s|, 8, 0
    ensures r.Ok? ==> |r.value.rest| <= |s|
  {
    var op := Next(UnaryOp, s);
    var afterOp := if op.Some? then op.value.rest else s;
    var m :- GetMember(afterOp);
    Ok(Parsed(if op.Some? then Some(Unary(op.value.node, m.node)) else m.node, m.rest))
  }

  /** `getBinary`: a unary, then an operator and the rest of the chain, which makes the chain right-nested. */
  function GetBinary(s: string): (r: Result<Parsed<Option<Expr>>>)
    decreases |s|, 9, 0
    ensures r.Ok? ==> |r.value.rest| <= |s|
  {
    var left :- GetUnary(s);
    match Next(BinaryOp, left.rest)
    case None => Ok(left)
    case Some(op) =>
      var right :- GetBinary(op.rest);
      Ok(Parsed(Some(Binary(left.node, op.node, right.node)), right.rest))
  }

  /** `getLogical`: a binary, then `||` or `&&` and the rest of the chain, right-nested. */
  function GetLogical(s: string): (r: Result<Parsed<Option<Expr>>>)
    decreases |s|, 10, 0
    ensures r.Ok? ==> |r.value.rest| <= |s|
  {
    var left :- GetBinary(s);
    match Next(LogicalOp, left.rest)
    case None => Ok(left)
    case Some(op) =>
      var right :- GetLogical(op.rest);
      Ok(Parsed(Some(Logical(left.node, op.node, right.node)), right.rest))
  }

  /** `getConditional`: a logical, then optionally `? conditional : conditional`, the `:` required. */
  function GetConditional(s: string): (r: Result<Parsed<Option<Expr>>>)
    decreases |s|, 11, 0
    ensures r.Ok? ==> |r.value.rest| <= |s|
  {
    var logical :- GetLogical(s);
    match Next(Question, logical.rest)
    case None => Ok(logical)
    case Some(q) =>
      var ifTrue :- GetConditional(q.rest);
      var colon :- Check(ColonSep, ifTrue.rest);
      var ifFalse :- GetConditional(colon.rest);
      Ok(Parsed(Some(Conditional(logical.node, ifTrue.node, ifFalse.node)), ifFalse.rest))
  }

  /** `readExpression`: an expression is a conditional. */
  function ReadExpression(s: string): (r: Result<Parsed<Option<Expr>>>)
    decreases |s|, 12, 0
    ensures r.Ok? ==> |r.value.rest| <= |s|
  {
    GetConditional(s)
  }
}
