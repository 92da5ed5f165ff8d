/**
 * `readIdentifier` and `lolParser` as functions of the text still to be read:
 * entities `<key value attributes>`, indexed entities `<key[expr, ...] ...>`,
 * macros `<key(expr, ...) { expression }>`, and comments between them.
 */
module LolParser {
  import opened Outcomes
  import opened Text
  import opened Tokens
  import opened Props
  import opened Tree
  import opened Values
  import opened Expressions

  /**
   * The list of an identifier: the punctuation `open` right after the name, expressions
   * separated by commas, and `close` (after optional whitespace).
   */
  function IdentifierList(open: Punct, close: char, s: string): (r: Result<Parsed<seq<Option<Expr>>>>)
    ensures r.Ok? ==> |r.value.rest| < |s| && |r.value.node| > 0
  {
    var o :- Check(Bare(open), s);
    var list :- ExpressionList(o.rest, []);
    var c :- Check(Spaced(close), list.rest);
    Ok(Parsed(list.node, c.rest))
  }

  /**
   * `readIdentifier`: the key, then an index list when the very next character is `[`
   * or a parameter list when it is `(`.
   */
  function ReadIdentifier(s: string): (r: Result<Parsed<EntityId>>)
    ensures r.Ok? ==> |r.value.rest| < |s| && r.value.node.key != []
    ensures r.Ok? ==> !(r.value.node.index.Some? && r.value.node.params.Some?)
    ensures r.Ok? && r.value.node.index.Some? ==> |r.value.node.index.value| > 0
    ensures r.Ok? && r.value.node.params.Some? ==> |r.value.node.params.value| > 0
  {
    var key :- Check(Identifier, s);
    var t := key.rest;
    if t != [] && t[0] == '[' then
      var index :- IdentifierList("[", ']', t);
      Ok(Parsed(EntityId(key.node, Some(index.node), None), index.rest))
    else if t != [] && t[0] == '(' then
      var params :- IdentifierList("(", ')', t);
      Ok(Parsed(EntityId(key.node, None, Some(params.node)), params.rest))
    else
      Ok(Parsed(EntityId(key.node, None, None), t))
  }

  /**
   * `nextEntity`: skip the comments `/* ... */` in front, then read `<`. `true` when an
   * entity opens, `false` (nothing more read) when none does; a comment that is not
   * closed is a syntax error.
   */
  function NextEntity(s: string): (r: Result<Parsed<bool>>)
    decreases |s|, 1
    ensures r.Ok? ==> |r.value.rest| <= |s|
    ensures r.Ok? && r.value.node ==> |r.value.rest| < |s|
  {
    match Next(CommentOpen, s)
    case Some(open) => AfterComment(open.rest)
    case None => EntityOpen(s)
  }

  /** The `check(/\*\//)` after a comment opener, then `nextEntity` again. */
  function AfterComment(s: string): (r: Result<Parsed<bool>>)
    decreases |s|, 0
    ensures r.Ok? ==> |r.value.rest| < |s|
  {
    var close :- Check(CommentClose, s);
    NextEntity(close.rest)
  }

  /** The `next(/^\s*</)` that ends `nextEntity`. */
  function EntityOpen(s: string): (r: Result<Parsed<bool>>)
    ensures r.Ok? ==> |r.value.rest| <= |s|
    ensures r.Ok? && r.value.node ==> |r.value.rest| < |s|
    ensures r.Ok? && (r.value.node <==> Next(Spaced('<'), s).Some?)
    ensures !r.value.node ==> r.value.rest == s
  {
    match Next(Spaced('<'), s)
    case Some(lt) => Ok(Parsed(true, lt.rest))
    case None => Ok(Parsed(false, s))
  }

  /**
   * The `while (id)` loop of `readAttributes` once the identifier `id` has been read and
   * `attributes` holds `acc`: `: value`, then the next identifier, if any.
   */
  function AttributeLoop(id: string, s: string, acc: Props<Option<Value>>): (r: Result<Parsed<Option<Props<Option<Value>>>>>)
    decreases |s|
    ensures r.Ok? ==> |r.value.rest| < |s| && r.value.node.Some? && |r.value.node.value| > 0
  {
    var colon :- Check(ColonSep, s);
    var v :- ReadValue(colon.rest);
    var attributes := Put(acc, id, v.node);
    PutKeys(acc, id, v.node);
    match Next(Identifier, v.rest)
    case None => Ok(Parsed(Some(attributes), v.rest))
    case Some(next) => AttributeLoop(next.node, next.rest, attributes)
  }

  /** `readAttributes`: `key: value` pairs up to the first text that is not an identifier; `null` when there is none. */
  function ReadAttributes(s: string): (r: Result<Parsed<Option<Props<Option<Value>>>>>)
    ensures r.Ok? ==> |r.value.rest| <= |s|
    ensures r.Ok? ==> (r.value.node.None? <==> Next(Identifier, s).None?)
    ensures r.Ok? && r.value.node.Some? ==> |r.value.node.value| > 0
  {
    match Next(Identifier, s)
    case None => Ok(Parsed(None, s))
    case Some(id) => AttributeLoop(id.node, id.rest, [])
  }

  /**
   * What `lolParser` stores for an entity: with a parameter list, `{ expression }` and a macro;
   * otherwise the value and the attributes, stored bare when there are neither attributes nor an
   * index, and as an object otherwise, whose `value` is kept only when truthy.
   */
  function EntityBody(id: EntityId, s: string): (r: Result<Parsed<Entry>>)
    ensures r.Ok? ==> |r.value.rest| <= |s|
    ensures r.Ok? ==> (r.value.node.Macro? <==> id.params.Some?)
    ensures r.Ok? && r.value.node.Macro? ==> r.value.node.params == id.params.value
    ensures r.Ok? && r.value.node.Plain? ==> id.index.None?
    ensures r.Ok? && r.value.node.Complex? ==>
      r.value.node.index == id.index && (r.value.node.index.Some? || r.value.node.attributes.Some?)
    ensures r.Ok? && r.value.node.Complex? && r.value.node.value.Some? ==> TruthyValue(r.value.node.value)
    ensures r.Ok? && r.value.node.Complex? && r.value.node.attributes.Some? ==> |r.value.node.attributes.value| > 0
  {
    if id.params.None? then
      var value :- ReadValue(s);
      var attributes :- ReadAttributes(value.rest);
      if attributes.node.None? && id.index.None? then
        Ok(Parsed(Plain(value.node), attributes.rest))
      else
        var kept := if TruthyValue(value.node) then value.node else None;
        Ok(Parsed(Complex(id.index, kept, attributes.node), attributes.rest))
    else
      var open :- Check(Spaced('{'), s);
      var macro :- ReadExpression(open.rest);
      var close :- Check(Spaced('}'), macro.rest);
      Ok(Parsed(Macro(id.params.value, macro.node), close.rest))
  }

  /** One entity after its `<`: identifier, body and the closing `>`; the key and what is stored under it. */
  function ReadEntity(s: string): (r: Result<Parsed<(string, Entry)>>)
    ensures r.Ok? ==> |r.value.rest| < |s|
  {
    var id :- ReadIdentifier(s);
    var body :- EntityBody(id.node, id.rest);
    var gt :- Check(Spaced('>'), body.rest);
    Ok(Parsed((id.node.key, body.node), gt.rest))
  }

  /** `delete lolData[key]` then `lolData[key] = entry`: a redefined key loses its former entry and moves last. */
  function Store(data: Props<Entry>, key: string, entry: Entry): Props<Entry> {
    Put(Remove(data, key), key, entry)
  }

  /** The main loop of `lolParser` once `lolData` holds `data`: entities until no `<` follows. */
  function Entities(s: string, data: Props<Entry>): (r: Result<Props<Entry>>)
    decreases |s|, 1
  {
    var more :- NextEntity(s);
    if more.node then EntityThenMore(more.rest, data) else Ok(data)
  }

  /** One pass of the main loop after its `<`: read and store the entity, then go on. */
  function EntityThenMore(s: string, data: Props<Entry>): (r: Result<Props<Entry>>)
    decreases |s|, 0
  {
    var e :- ReadEntity(s);
    Entities(e.rest, Store(data, e.node.0, e.node.1))
  }

  /** `parseL20n(text)`: the entities of the whole text, or the failure of a `check` on the way. */
  function ParseL20n(text: string): Result<Props<Entry>> {
    Entities(text, [])
  }
}
