/**
 * The parser as the JavaScript code runs it: one object whose `text` and `parsedText` move
 * forward as tokens are consumed. Each method is proved to return what the matching
 * function of the text still to be read returns, and to leave `text` where that
 * function says; every method keeps `parsedText + text` equal to the input.
 */
module Parser {
  import opened Outcomes
  import opened Text
  import opened Tokens
  import opened Escapes
  import opened Props
  import opened Tree
  import Values
  import Expressions
  import LolParser

  /** A method's outcome `r`, with `rest` the text it leaves unread, is what `spec` describes. */
  predicate Agrees<T(==)>(r: Result<T>, spec: Result<Parsed<T>>, rest: string) {
    match spec
    case Ok(p) => r == Ok(p.node) && rest == p.rest
    case Err(e) => r == Err(e)
  }

  // One step of the `getString` scan for each branch of its loop body: the scan from the
  // new position ends as the scan from the old one (`goal`).

  lemma EscapeStep(t: string, delim: string, len: nat, i: nat, goal: Values.ScanEnd)
    requires IsQuote(delim) && i < len && Values.ScanLoop(t, delim, len, i, true) == goal
    ensures Values.ScanLoop(t, delim, len, i + 1, false) == goal
  {
  }

  lemma PlainStep(t: string, delim: string, len: nat, i: nat, goal: Values.ScanEnd)
    requires IsQuote(delim) && i < len && !(0 < i < |t| && t[i] == '{' && t[i - 1] == '{')
    requires Values.ScanLoop(t, delim, len, i, false) == goal
    ensures if Values.CheckDelim(t, delim, i) then goal == Values.Closed(i + 1)
      else Values.ScanLoop(t, delim, len, i + 1, i < |t| && t[i] == '\\') == goal
  {
  }

  lemma ScanJumps(t: string, delim: string, len: nat, i: nat, j: nat)
    requires IsQuote(delim) && i < len && 0 < i < |t| && t[i] == '{' && t[i - 1] == '{'
    requires IndexOf(t, "}}", i) == Some(j)
    ensures Values.ScanLoop(t, delim, len, i, false) == Values.ScanLoop(t, delim, len, j + 1, false)
  {
  }

  lemma JumpStep(t: string, delim: string, len: nat, i: nat, j: nat, goal: Values.ScanEnd)
    requires IsQuote(delim) && i < len && 0 < i < |t| && t[i] == '{' && t[i - 1] == '{'
    requires IndexOf(t, "}}", i) == Some(j) && Values.ScanLoop(t, delim, len, i, false) == goal
    ensures Values.ScanLoop(t, delim, len, j + 1, false) == goal
  {
    ScanJumps(t, delim, len, i, j);
  }

  lemma JumpLoops(t: string, delim: string, len: nat, i: nat, goal: Values.ScanEnd)
    requires IsQuote(delim) && i < len && 0 < i < |t| && t[i] == '{' && t[i - 1] == '{'
    requires IndexOf(t, "}}", i).None? && Values.ScanLoop(t, delim, len, i, false) == goal
    ensures goal == Values.Loops
  {
  }

  /**
   * The `while` loop of `getString` over the text `t` after the opening delimiter, `len`
   * being the length of the text before it: where a closer ends, or that none does, or that
   * a `{{` without `}}` sends the JavaScript loop back to the start for ever.
   */
  method ScanString(t: string, delim: string, len: nat) returns (end: Values.ScanEnd)
    requires IsQuote(delim)
    ensures end == Values.ScanLoop(t, delim, len, 0, false)
    ensures end.Closed? ==> |delim| <= end.end <= |t|
    ensures Values.StringBody(t, delim, len) == Values.ScanResult(t, delim, end)
  {
    var escapeMode := false;
    var delimFound := false;
    var i: nat := 0;
    ghost var goal := Values.ScanLoop(t, delim, len, i, escapeMode);
    while !delimFound && i < len
      invariant !delimFound ==> Values.ScanLoop(t, delim, len, i, escapeMode) == goal
      invariant delimFound ==> goal == Values.Closed(i)
      decreases len - i
    {
      if escapeMode {
        EscapeStep(t, delim, len, i, goal);
        escapeMode := false;
        i := i + 1;
      } else {
        delimFound := Values.CheckDelim(t, delim, i);
        escapeMode := i < |t| && t[i] == '\\';
        if 0 < i < |t| && t[i] == '{' && t[i - 1] == '{' {
          Values.BraceNeverCloses(t, delim, i);
          var j := IndexOf(t, "}}", i);
          if j.None? {
            JumpLoops(t, delim, len, i, goal);
            return Values.Loops;
          }
          JumpStep(t, delim, len, i, j.value, goal);
          i := j.value + 1;
        } else {
          PlainStep(t, delim, len, i, goal);
          i := i + 1;
        }
      }
    }
    if delimFound {
      return Values.Closed(i);
    }
    return Values.Unclosed;
  }

  /** The outcome of `getMember` once its loop yields `chain`. */
  function Chained(chain: Result<Parsed<Expr>>): Result<Parsed<Option<Expr>>> {
    match chain
    case Ok(m) => Ok(Parsed(Some(m.node), m.rest))
    case Err(e) => Err(e)
  }

  class L20nParser {
    /** The text given to `parseL20n`. */
    ghost const input: string
    /** What is left to read. */
    var text: string
    /** What has been consumed. */
    var parsedText: string

    ghost predicate Valid()
      reads this
    {
      parsedText + text == input
    }

    constructor (source: string)
      ensures input == source && text == source && parsedText == ""
      ensures Valid()
    {
      input := source;
      text := source;
      parsedText := "";
    }

    /** Move the first `index` characters of `text` over to `parsedText`. */
    method Consume(index: nat)
      requires Valid() && index <= |text|
      modifies this
      ensures Valid()
      ensures text == old(text)[index..] && parsedText == old(parsedText) + old(text)[..index]
    {
      assert text == text[..index] + text[index..];
      parsedText := parsedText + text[..index];
      text := text[index..];
    }

    /**
     * `next(re)`: on a match, consume the text up to the end of the match and return the
     * match without its leading whitespace; otherwise change nothing.
     */
    method NextToken(t: Token) returns (r: Option<string>)
      requires Valid()
      modifies this
      ensures Valid()
      ensures r == Node(Next(t, old(text)))
      ensures text == if r.Some? then Next(t, old(text)).value.rest else old(text)
    {
      var m := Exec(t, text);
      if m.None? {
        return None;
      }
      var index := m.value.index + m.value.len;
      NextOfMatch(t, text, m.value.index, m.value.len);
      var token := StripSpace(text[m.value.index..index]);
      ghost var next := Parsed(token, text[index..]);
      assert Next(t, text) == Some(next);
      Consume(index);
      r := Some(token);
    }

    /** `check(re)`: `next(re)`, failing when it finds nothing. */
    method CheckToken(t: Token) returns (r: Result<string>)
      requires Valid()
      modifies this
      ensures Valid()
      ensures Agrees(r, Check(t, old(text)), text)
      ensures r.Ok? ==> |text| < |old(text)|
    {
      var rv := NextToken(t);
      if rv.None? {
        return Err(SyntaxError);
      }
      return Ok(rv.value);
    }

    /**
     * The part of `getString` after the opening delimiter `delim`, `len` being the length
     * of the text before it: on a closer, consume up to it and return the decoded text.
     */
    method StringBody(delim: string, len: nat) returns (r: Result<string>)
      requires Valid() && IsQuote(delim)
      modifies this
      ensures Valid()
      ensures Agrees(r, Values.StringBody(old(text), delim, len), text)
    {
      var t := text;
      var end := ScanString(t, delim, len);
      if end.Loops? {
        return Err(NeverTerminates);
      }
      if end.Unclosed? {
        return Ok("");
      }
      var i := end.end;
      var str := EvalString(t[..i - |delim|]);
      Consume(i);
      return Ok(str);
    }

    /**
     * `getString`: read the opening delimiter, then scan for the closing one, skipping
     * escaped characters and jumping over `{{ ... }}`.
     */
    method GetString() returns (r: Result<string>)
      requires Valid()
      modifies this
      ensures Valid()
      ensures Agrees(r, Values.GetString(old(text)), text)
    {
      var len := |text|;
      ghost var s0 := text;
      var delim :- CheckToken(StringDelim);
      assert IsQuote(delim) by { StringDelimToken(s0); }
      r := StringBody(delim, len);
    }

    /** `readValue`: a string, an array or an object according to the first token; `null` (without reading) for anything else. */
    method ReadValue() returns (r: Result<Option<Value>>)
      requires Valid()
      modifies this
      decreases |text|, 2
      ensures Valid()
      ensures Agrees(r, Values.ReadValue(old(text)), text)
    {
      var c := ValueBegin(text);
      if c.None? {
        return Ok(None);
      }
      if c.value == '"' || c.value == '\'' {
        var v :- GetString();
        return Ok(Some(Str(v)));
      } else if c.value == '[' {
        var v :- GetArray();
        return Ok(Some(v));
      } else {
        var v :- GetList();
        return Ok(Some(v));
      }
    }

    /** `getArray`: `[`, then the `do … while (next(reCommaSep))` loop over values, then `]`. */
    method GetArray() returns (r: Result<Value>)
      requires Valid()
      modifies this
      decreases |text|, 1
      ensures Valid()
      ensures Agrees(r, Values.GetArray(old(text)), text)
    {
      ghost var s0 := text;
      var open :- CheckToken(Spaced('['));
      var close := NextToken(Spaced(']'));
      if close.Some? {
        return Ok(Arr([]));
      }
      var table: seq<Option<Value>> := [];
      var more := true;
      while more
        invariant Valid() && |text| < |s0|
        invariant more ==> Values.GetArray(s0) == Values.ArrayItems(text, table)
        invariant !more ==> Values.GetArray(s0) == Values.ArrayClose(text, table)
        decreases more, |text|
      {
        var v :- ReadValue();
        table := table + [v];
        var comma := NextToken(CommaSep);
        more := comma.Some?;
      }
      var end :- CheckToken(Spaced(']'));
      return Ok(Arr(table));
    }

    /** `getList`: `{`, then the `do … while (next(reCommaSep))` loop over `key: value` entries, then `}`. */
    method GetList() returns (r: Result<Value>)
      requires Valid()
      modifies this
      decreases |text|, 1
      ensures Valid()
      ensures Agrees(r, Values.GetList(old(text)), text)
    {
      ghost var s0 := text;
      var open :- CheckToken(Spaced('{'));
      var close := NextToken(Spaced('}'));
      if close.Some? {
        return Ok(Obj([]));
      }
      var list: Props<Option<Value>> := [];
      var more := true;
      while more
        invariant Valid() && |text| < |s0|
        invariant more ==> Values.GetList(s0) == Values.ListEntries(text, list)
        invariant !more ==> Values.GetList(s0) == Values.ListClose(text, list)
        decreases more, |text|
      {
        var id := NextToken(Identifier);
        var colon :- CheckToken(ColonSep);
        var v :- ReadValue();
        list := Put(list, Values.ListKey(id), v);
        var comma := NextToken(CommaSep);
        more := comma.Some?;
      }
      var end :- CheckToken(Spaced('}'));
      return Ok(Obj(list));
    }

    /** `getPrimary`: `( expression )`, a number, a value, a bare name, or `null` without reading anything. */
    method GetPrimary() returns (r: Result<Option<Expr>>)
      requires Valid()
      modifies this
      decreases |text|, 4
      ensures Valid()
      ensures Agrees(r, Expressions.GetPrimary(old(text)), text)
    {
      var open := NextToken(Spaced('('));
      if open.Some? {
        var e :- ReadExpression();
        var close :- CheckToken(Spaced(')'));
        return Ok(Some(Paren(e)));
      }
      var num := NextToken(Number);
      if num.Some? {
        return Ok(Some(Num(ParseInt(num.value))));
      }
      if ValueBegin(text).Some? {
        var v :- ReadValue();
        return Ok(if v.Some? then Some(Lit(v.value)) else None);
      }
      var id := NextToken(Identifier);
      if id.Some? {
        return Ok(Some(Name(id.value)));
      }
      return Ok(None);
    }

    /**
     * What `getAttr` and `getProp` read before their truthiness test: the identifier after
     * `dotted`, or the expression after `bracket` and its `]`; `null` when neither follows.
     */
    method Selector(dotted: Punct, bracket: Punct) returns (r: Result<Option<Expr>>)
      requires Valid()
      modifies this
      decreases |text|, 3
      ensures Valid()
      ensures Agrees(r, Expressions.Selector(dotted, bracket, old(text)), text)
    {
      var dot := NextToken(Bare(dotted));
      if dot.Some? {
        var id :- CheckToken(Identifier);
        return Ok(Some(Name(id)));
      }
      var open := NextToken(Bare(bracket));
      if open.Some? {
        var e :- ReadExpression();
        var close :- CheckToken(Spaced(']'));
        return Ok(e);
      }
      return Ok(None);
    }

    /** `getAttr`: `..ID` or `[.expression]` after the primary, `null` when what was read is falsy. */
    method GetAttr(primary: Expr) returns (r: Result<Option<Expr>>)
      requires Valid()
      modifies this
      decreases |text|, 4
      ensures Valid()
      ensures Agrees(r, Expressions.GetAttr(primary, old(text)), text)
    {
      var attr :- Selector("..", "[.");
      return Ok(if Truthy(attr) then Some(Attr(primary, attr.value)) else None);
    }

    /** `getProp`: `.ID` or `[expression]` after the primary, `null` when what was read is falsy. */
    method GetProp(primary: Expr) returns (r: Result<Option<Expr>>)
      requires Valid()
      modifies this
      decreases |text|, 4
      ensures Valid()
      ensures Agrees(r, Expressions.GetProp(primary, old(text)), text)
    {
      var prop :- Selector(".", "[");
      return Ok(if Truthy(prop) then Some(Prop(primary, prop.value)) else None);
    }

    /** `getCall`: `(`, the argument list, and a `)` with no whitespace before it. */
    method GetCall(primary: Expr) returns (r: Result<Option<Expr>>)
      requires Valid()
      modifies this
      decreases |text|, 4
      ensures Valid()
      ensures Agrees(r, Expressions.GetCall(primary, old(text)), text)
    {
      var open := NextToken(Bare("("));
      if open.None? {
        return Ok(None);
      }
      var params :- ExpressionList();
      var close :- CheckToken(Bare(")"));
      return Ok(Some(Call(primary, params)));
    }

    /** The `do { list.push(readExpression()) } while (next(reCommaSep))` loop of `getCall` and `readIdentifier`. */
    method ExpressionList() returns (r: Result<seq<Option<Expr>>>)
      requires Valid()
      modifies this
      decreases |text|, 13
      ensures Valid()
      ensures Agrees(r, Expressions.ExpressionList(old(text), []), text)
    {
      ghost var s0 := text;
      var list: seq<Option<Expr>> := [];
      var more := true;
      while more
        invariant Valid() && |text| <= |s0|
        invariant more ==> Expressions.ExpressionList(s0, []) == Expressions.ExpressionList(text, list)
        invariant !more ==> Expressions.ExpressionList(s0, []) == Ok(Parsed(list, text))
        decreases more, |text|
      {
        var e :- ReadExpression();
        list := list + [e];
        var comma := NextToken(CommaSep);
        more := comma.Some?;
      }
      return Ok(list);
    }

    /** `getAttr(primary) || getProp(primary) || getCall(primary)`. */
    method MemberStep(primary: Expr) returns (r: Result<Option<Expr>>)
      requires Valid()
      modifies this
      decreases |text|, 5
      ensures Valid()
      ensures Agrees(r, Expressions.MemberStep(primary, old(text)), text)
    {
      var a :- GetAttr(primary);
      if a.Some? {
        return Ok(a);
      }
      var p :- GetProp(primary);
      if p.Some? {
        return Ok(p);
      }
      r := GetCall(primary);
    }

    /** `getMember`: a primary, then member accesses for as long as one follows; `null` for a falsy primary. */
    method GetMember() returns (r: Result<Option<Expr>>)
      requires Valid()
      modifies this
      decreases |text|, 7
      ensures Valid()
      ensures Agrees(r, Expressions.GetMember(old(text)), text)
    {
      ghost var s0 := text;
      var primary :- GetPrimary();
      if !Truthy(primary) {
        return Ok(None);
      }
      var current := primary.value;
      var member :- MemberStep(current);
      while member.Some?
        invariant Valid() && |text| <= |s0|
        invariant member.Some? ==> Expressions.GetMember(s0) == Chained(Expressions.MemberLoop(member.value, text))
        invariant member.None? ==> Expressions.GetMember(s0) == Ok(Parsed(Some(current), text))
        decreases member.Some?, |text|
      {
        current := member.value;
        member :- MemberStep(current);
      }
      return Ok(Some(current));
    }

    /** `getUnary`: an optional operator, then a member. */
    method GetUnary() returns (r: Result<Option<Expr>>)
      requires Valid()
      modifies this
      decreases |text|, 8
      ensures Valid()
      ensures Agrees(r, Expressions.GetUnary(old(text)), text)
    {
      var op := NextToken(UnaryOp);
      var member :- GetMember();
      return Ok(if op.Some? then Some(Unary(op.value, member)) else member);
    }

    /** `getBinary`: a unary, then an operator and `getBinary()` again. */
    method GetBinary() returns (r: Result<Option<Expr>>)
      requires Valid()
      modifies this
      decreases |text|, 9
      ensures Valid()
      ensures Agrees(r, Expressions.GetBinary(old(text)), text)
    {
      var left :- GetUnary();
      var op := NextToken(BinaryOp);
      if op.None? {
        return Ok(left);
      }
      var right :- GetBinary();
      return Ok(Some(Binary(left, op.value, right)));
    }

    /** `getLogical`: a binary, then `||` or `&&` and `getLogical()` again. */
    method GetLogical() returns (r: Result<Option<Expr>>)
      requires Valid()
      modifies this
      decreases |text|, 10
      ensures Valid()
      ensures Agrees(r, Expressions.GetLogical(old(text)), text)
    {
      var left :- GetBinary();
      var op := NextToken(LogicalOp);
      if op.None? {
        return Ok(left);
      }
      var right :- GetLogical();
      return Ok(Some(Logical(left, op.value, right)));
    }

    /** `getConditional`: a logical, then optionally `? ifTrue : ifFalse`. */
    method GetConditional() returns (r: Result<Option<Expr>>)
      requires Valid()
      modifies this
      decreases |text|, 11
      ensures Valid()
      ensures Agrees(r, Expressions.GetConditional(old(text)), text)
    {
      var logical :- GetLogical();
      var q := NextToken(Question);
      if q.None? {
        return Ok(logical);
      }
      var ifTrue :- GetConditional();
      var colon :- CheckToken(ColonSep);
      var ifFalse :- GetConditional();
      return Ok(Some(Conditional(logical, ifTrue, ifFalse)));
    }

    /** `readExpression`. */
    method ReadExpression() returns (r: Result<Option<Expr>>)
      requires Valid()
      modifies this
      decreases |text|, 12
      ensures Valid()
      ensures Agrees(r, Expressions.ReadExpression(old(text)), text)
    {
      r := GetConditional();
    }

    /** The list after an identifier: `open`, the expressions, and `close` after optional whitespace. */
    method IdentifierList(open: Punct, close: char) returns (r: Result<seq<Option<Expr>>>)
      requires Valid()
      modifies this
      ensures Valid()
      ensures Agrees(r, LolParser.IdentifierList(open, close, old(text)), text)
    {
      var o :- CheckToken(Bare(open));
      var list :- ExpressionList();
      var c :- CheckToken(Spaced(close));
      return Ok(list);
    }

    /** `readIdentifier`: the key, then an index list or a parameter list according to the very next character. */
    method ReadIdentifier() returns (r: Result<EntityId>)
      requires Valid()
      modifies this
      ensures Valid()
      ensures Agrees(r, LolParser.ReadIdentifier(old(text)), text)
    {
      var key :- CheckToken(Identifier);
      if text != [] && text[0] == '[' {
        var index :- IdentifierList("[", ']');
        return Ok(EntityId(key, Some(index), None));
      } else if text != [] && text[0] == '(' {
        var params :- IdentifierList("(", ')');
        return Ok(EntityId(key, None, Some(params)));
      }
      return Ok(EntityId(key, None, None));
    }

    /** `nextEntity`: skip each comment, opener then closer, and then read an optional `<`. */
    method NextEntity() returns (r: Result<bool>)
      requires Valid()
      modifies this
      ensures Valid()
      ensures Agrees(r, LolParser.NextEntity(old(text)), text)
    {
      ghost var s0 := text;
      var open := NextToken(CommentOpen);
      while open.Some?
        invariant Valid()
        invariant open.Some? ==> LolParser.NextEntity(s0) == LolParser.AfterComment(text)
        invariant open.None? ==> LolParser.NextEntity(s0) == LolParser.EntityOpen(text)
        decreases open.Some?, |text|
      {
        var close :- CheckToken(CommentClose);
        open := NextToken(CommentOpen);
      }
      var lt := NextToken(Spaced('<'));
      return Ok(lt.Some?);
    }

    /** `readAttributes`: `id: value` pairs while an identifier follows; `null` when there is none. */
    method ReadAttributes() returns (r: Result<Option<Props<Option<Value>>>>)
      requires Valid()
      modifies this
      ensures Valid()
      ensures Agrees(r, LolParser.ReadAttributes(old(text)), text)
    {
      ghost var s0 := text;
      var attributes: Props<Option<Value>> := [];
      var empty := true;
      var id := NextToken(Identifier);
      while id.Some?
        invariant Valid()
        invariant id.Some? ==> LolParser.ReadAttributes(s0) == LolParser.AttributeLoop(id.value, text, attributes)
        invariant id.None? ==> LolParser.ReadAttributes(s0) == Ok(Parsed(if empty then None else Some(attributes), text))
        decreases id.Some?, |text|
      {
        var colon :- CheckToken(ColonSep);
        var v :- ReadValue();
        attributes := Put(attributes, id.value, v);
        id := NextToken(Identifier);
        empty := false;
      }
      return Ok(if empty then None else Some(attributes));
    }

    /** What the main loop of `lolParser` reads and stores after the identifier `id`. */
    method EntityBody(id: EntityId) returns (r: Result<Entry>)
      requires Valid()
      modifies this
      ensures Valid()
      ensures Agrees(r, LolParser.EntityBody(id, old(text)), text)
    {
      if id.params.None? {
        var value :- ReadValue();
        var attributes :- ReadAttributes();
        if attributes.None? && id.index.None? {
          return Ok(Plain(value));
        }
        var kept := if TruthyValue(value) then value else None;
        return Ok(Complex(id.index, kept, attributes));
      }
      var open :- CheckToken(Spaced('{'));
      var macro :- ReadExpression();
      var close :- CheckToken(Spaced('}'));
      return Ok(Macro(id.params.value, macro));
    }

    /**
     * The main loop of `lolParser`: while an entity opens, read its identifier, forget any
     * former entry of its key, read and store its body, and read the closing `>`.
     */
    method Parse() returns (r: Result<Props<Entry>>)
      requires Valid()
      modifies this
      ensures Valid()
      ensures r == LolParser.Entities(old(text), [])
    {
      ghost var s0 := text;
      var lolData: Props<Entry> := [];
      var more :- NextEntity();
      while more
        invariant Valid()
        invariant more ==> LolParser.Entities(s0, []) == LolParser.EntityThenMore(text, lolData)
        invariant !more ==> LolParser.Entities(s0, []) == Ok(lolData)
        decreases more, |text|
      {
        ghost var before := lolData;
        var id :- ReadIdentifier();
        var key := id.key;
        if key in Keys(lolData) {
          lolData := Remove(lolData, key);
        } else {
          RemoveAbsent(lolData, key);
        }
        var entry :- EntityBody(id);
        lolData := Put(lolData, key, entry);
        assert lolData == LolParser.Store(before, key, entry);
        var gt :- CheckToken(Spaced('>'));
        more :- NextEntity();
      }
      return Ok(lolData);
    }
  }

  /** `parseL20n(text)`: a parser over the whole text, and its main loop. */
  method ParseL20n(source: string) returns (r: Result<Props<Entry>>)
    ensures r == LolParser.ParseL20n(source)
  {
    var parser := new L20nParser(source);
    r := parser.Parse();
  }
}
