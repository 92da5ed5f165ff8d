/**
 * What `readIdentifier` and `lolParser` promise: where index and parameter lists
 * can appear, how a redefined key replaces its former entry, and where parsing stops.
 */
module EntityLaws {
  import opened Outcomes
  import opened Text
  import opened Tokens
  import opened TokenFacts
  import opened Props
  import opened Tree
  import opened Values
  import opened Expressions
  import opened LolParser
  import opened ValueLaws
  import opened ExpressionLaws
  import opened ListLaws
  import opened AttributeLaws

  /**
   * An index list is read exactly when the character right after the name is `[`, and a
   * parameter list exactly when it is `(`.
   */
  lemma ListsFollowTheName(s: string, k: string, t: string)
    requires Next(Identifier, s) == Some(Parsed(k, t))
    ensures var r := ReadIdentifier(s);
      r.Ok? ==>
        r.value.node.key == k &&
        (r.value.node.index.Some? <==> t != [] && t[0] == '[') &&
        (r.value.node.params.Some? <==> t != [] && t[0] == '(')
  {
  }

  /** Whitespace between the name and a bracket: neither list is read, and the bracket is left unread. */
  lemma SpaceBeforeBracket(s: string, k: string, t: string)
    requires Next(Identifier, s) == Some(Parsed(k, t)) && t != [] && IsSpace(t[0])
    ensures ReadIdentifier(s) == Ok(Parsed(EntityId(k, None, None), t))
  {
  }

  /** A stored entity replaces any former entry of its key and comes last. */
  lemma StoreMovesLast(data: Props<Entry>, key: string, entry: Entry)
    ensures Store(data, key, entry) == Remove(data, key) + [(key, entry)]
  {
    RemoveKeys(data, key, key);
    PutFresh(Remove(data, key), key, entry);
  }

  /** After storing, the key holds the new entry and every other key what it held before. */
  lemma StoreGet(data: Props<Entry>, key: string, entry: Entry, k: string)
    ensures Get(Store(data, key, entry), k) == if k == key then Some(entry) else Get(data, k)
  {
    PutGet(Remove(data, key), key, entry, k);
    RemoveGet(data, key, k);
  }

  lemma StoreUnique(data: Props<Entry>, key: string, entry: Entry)
    requires UniqueKeys(data)
    ensures UniqueKeys(Store(data, key, entry))
  {
    RemoveUnique(data, key);
    PutUnique(Remove(data, key), key, entry);
  }

  /** The parsed entities never hold a key twice. */
  lemma {:induction false} EntitiesUnique(s: string, data: Props<Entry>)
    requires UniqueKeys(data)
    ensures Entities(s, data).Ok? ==> UniqueKeys(Entities(s, data).value)
    decreases |s|
  {
    var more := NextEntity(s);
    if more.Ok? && more.value.node {
      var e := ReadEntity(more.value.rest);
      if e.Ok? {
        StoreUnique(data, e.value.node.0, e.value.node.1);
        EntitiesUnique(e.value.rest, Store(data, e.value.node.0, e.value.node.1));
      }
    }
  }

  lemma ParseUnique(text: string)
    ensures ParseL20n(text).Ok? ==> UniqueKeys(ParseL20n(text).value)
  {
    EntitiesUnique(text, []);
  }

  /** When `nextEntity` finds no entity, the main loop ends with what it holds, whatever text is left. */
  lemma StopsWithoutEntity(s: string, data: Props<Entry>, r: string)
    requires NextEntity(s) == Ok(Parsed(false, r))
    ensures Entities(s, data) == Ok(data)
  {
  }

  /** Neither a comment nor a `<` ahead: `nextEntity` reports no entity and reads nothing. */
  lemma NothingOpens(s: string)
    requires Next(CommentOpen, s) == None && Next(Spaced('<'), s) == None
    ensures NextEntity(s) == Ok(Parsed(false, s))
  {
  }

  /** A closed comment is skipped: `nextEntity` goes on after its `*\/`. */
  lemma CommentSkipped(s: string, x: string, c: string, w: string)
    requires Next(CommentOpen, s).Some? && Next(CommentOpen, s).value.rest == x
    requires Check(CommentClose, x) == Ok(Parsed(c, w))
    ensures NextEntity(s) == NextEntity(w)
  {
  }

  /** A comment that is never closed is a syntax error of the whole parse. */
  lemma UnclosedComment(s: string, x: string, data: Props<Entry>)
    requires Next(CommentOpen, s).Some? && Next(CommentOpen, s).value.rest == x
    requires Next(CommentClose, x) == None
    ensures NextEntity(s) == Err(SyntaxError)
    ensures Entities(s, data) == Err(SyntaxError)
  {
  }

  /** Any other visible character ahead, or the end of the text: parsing ends there successfully. */
  lemma StopsAtOtherCharacter(s: string, data: Props<Entry>)
    requires s == [] || (!IsSpace(s[0]) && s[0] != '<' && s[0] != '/')
    ensures NextEntity(s) == Ok(Parsed(false, s))
    ensures Entities(s, data) == Ok(data)
  {
    MissAtStart(CommentOpen, s);
    NoPunct('<', s);
    NothingOpens(s);
    StopsWithoutEntity(s, data, s);
  }

  /** A bare entity is stored as its value alone, and one with an index or attributes as an object. */
  lemma PlainExactlyWhenBare(id: EntityId, s: string, v: Option<Value>, t: string)
    requires id.params.None? && ReadValue(s) == Ok(Parsed(v, t))
    ensures var r := EntityBody(id, s);
      r.Ok? ==>
        (r.value.node.Plain? <==> id.index.None? && Next(Identifier, t).None?) &&
        (r.value.node.Plain? ==> r.value.node.value == v) &&
        (r.value.node.Complex? ==> r.value.node.value == if TruthyValue(v) then v else None)
  {
  }

  /** A name followed by neither `[` nor `(` is an identifier without lists. */
  lemma BareIdentifier(k: string, t: string)
    requires IsName(k) && (t == [] || (!IsWord(t[0]) && t[0] != '[' && t[0] != '('))
    ensures ReadIdentifier(k + t) == Ok(Parsed(EntityId(k, None, None), t))
  {
    NextName(k, t);
  }

  lemma Nest4(a: string, b: string, c: string, d: string)
    ensures a + b + c + d == a + (b + (c + d))
  {
  }

  lemma Nest7(a: string, b: string, c: string, d: string, e: string, f: string, g: string)
    ensures a + b + c + d + e + f + g == a + (b + (c + (d + (e + (f + g)))))
  {
  }

  lemma Nest9(a: string, b: string, c: string, d: string, e: string, f: string, g: string, h: string, i: string)
    ensures a + b + c + d + e + f + g + h + i == a + (b + (c + (d + (e + (f + (g + (h + i)))))))
  {
    Nest7(a, b, c, d, e, f, g + h + i);
    assert g + h + i == g + (h + i);
  }

  /** A value with no attribute after it and no index in front is stored bare. */
  lemma PlainBody(id: EntityId, s: string, v: Option<Value>, t: string)
    requires id.params.None? && id.index.None?
    requires ReadValue(s) == Ok(Parsed(v, t)) && Next(Identifier, t) == None
    ensures EntityBody(id, s) == Ok(Parsed(Plain(v), t))
  {
  }

  /** Attributes after a value make the entity an object, which keeps the value only when truthy. */
  lemma AttributedBody(id: EntityId, s: string, v: Option<Value>, t: string, attributes: Props<Option<Value>>, u: string)
    requires id.params.None? && ReadValue(s) == Ok(Parsed(v, t))
    requires ReadAttributes(t) == Ok(Parsed(Some(attributes), u))
    ensures EntityBody(id, s) == Ok(Parsed(Complex(id.index, if TruthyValue(v) then v else None, Some(attributes)), u))
  {
  }

  /** An index and no attributes: the entity is an object with its index. */
  lemma IndexedBody(id: EntityId, s: string, v: Option<Value>, t: string)
    requires id.params.None? && id.index.Some?
    requires ReadValue(s) == Ok(Parsed(v, t)) && Next(Identifier, t) == None
    ensures EntityBody(id, s) == Ok(Parsed(Complex(id.index, if TruthyValue(v) then v else None, None), t))
  {
  }

  /** A parameter list makes the entity a macro: `{`, one expression, and `}`. */
  lemma MacroBody(id: EntityId, s: string, x: string, e: Option<Expr>, y: string, u: string)
    requires id.params.Some?
    requires Check(Spaced('{'), s) == Ok(Parsed("{", x)) && ReadExpression(x) == Ok(Parsed(e, y))
    requires Check(Spaced('}'), y) == Ok(Parsed("}", u))
    ensures EntityBody(id, s) == Ok(Parsed(Macro(id.params.value, e), u))
  {
  }

  /** An entity put together from its identifier, its body and its `>`. */
  lemma EntityOfParts(s: string, id: EntityId, t: string, e: Entry, u: string, w: string)
    requires ReadIdentifier(s) == Ok(Parsed(id, t)) && EntityBody(id, t) == Ok(Parsed(e, u))
    requires Check(Spaced('>'), u) == Ok(Parsed(">", w))
    ensures ReadEntity(s) == Ok(Parsed((id.key, e), w))
  {
  }

  /** An entity without lists whose value is followed directly by its `>`. */
  lemma PlainEntity(s: string, k: string, t: string, v: Option<Value>, u: string, w: string)
    requires ReadIdentifier(s) == Ok(Parsed(EntityId(k, None, None), t)) && ReadValue(t) == Ok(Parsed(v, u))
    requires Next(Identifier, u) == None && Check(Spaced('>'), u) == Ok(Parsed(">", w))
    ensures ReadEntity(s) == Ok(Parsed((k, Plain(v)), w))
  {
    PlainBody(EntityId(k, None, None), t, v, u);
    EntityOfParts(s, EntityId(k, None, None), t, Plain(v), u, w);
  }

  /** `<k "…">`, `<k {…}>`: a name, a printed value that is not an array, and `>`. */
  lemma ReadPlainEntity(k: string, v: Value, rest: string)
    requires IsName(k) && Printable(v) && !v.Arr?
    ensures ReadEntity(k + Show(v) + ">" + rest) == Ok(Parsed((k, Plain(Some(v))), rest))
  {
    var u := ">" + rest;
    var t := Show(v) + u;
    Nest4(k, Show(v), ">", rest);
    ShowThen(v, u);
    BareIdentifier(k, t);
    ReadShow(v, u);
    AtCloseAngle(rest);
    PlainEntity(k + t, k, t, Some(v), u, rest);
  }

  /** `<k>`: an entity without a value is stored as `null`. */
  lemma ReadEmptyEntity(k: string, rest: string)
    requires IsName(k)
    ensures ReadEntity(k + ">" + rest) == Ok(Parsed((k, Plain(None)), rest))
  {
    var u := ">" + rest;
    assert k + ">" + rest == k + u;
    BareIdentifier(k, u);
    AtCloseAngle(rest);
    assert ReadValue(u) == Ok(Parsed(None, u));
    PlainEntity(k + u, k, u, None, u, rest);
  }

  /** An entity without lists whose value is followed by attributes. */
  lemma AttributedEntity(s: string, k: string, t: string, v: Option<Value>, y: string, attributes: Props<Option<Value>>, u: string, w: string)
    requires ReadIdentifier(s) == Ok(Parsed(EntityId(k, None, None), t)) && ReadValue(t) == Ok(Parsed(v, y))
    requires ReadAttributes(y) == Ok(Parsed(Some(attributes), u)) && Check(Spaced('>'), u) == Ok(Parsed(">", w))
    ensures ReadEntity(s) == Ok(Parsed((k, Complex(None, if TruthyValue(v) then v else None, Some(attributes))), w))
  {
    AttributedBody(EntityId(k, None, None), t, v, y, attributes, u);
  }

  /** `<k "…"a:"…">`: a value followed by one attribute makes an object, which keeps the value when truthy. */
  lemma ReadAttributedEntity(k: string, v: Value, a: string, w: Value, rest: string)
    requires IsName(k) && Printable(v) && !v.Arr? && IsName(a) && Printable(w)
    ensures ReadEntity(k + Show(v) + a + ":" + Show(w) + ">" + rest) ==
      Ok(Parsed((k, Complex(None, if TruthyValue(Some(v)) then Some(v) else None, Some([(a, Some(w))]))), rest))
  {
    var y := a + (":" + (Show(w) + (">" + rest)));
    var t := Show(v) + y;
    Nest7(k, Show(v), a, ":", Show(w), ">", rest);
    ShowThen(v, y);
    BareIdentifier(k, t);
    assert ReadValue(t) == Ok(Parsed(Some(v), y)) by {
      assert y[0] == a[0];
      ReadShow(v, y);
    }
    OneAttribute(a, w, rest);
    AtCloseAngle(rest);
    AttributedEntity(k + t, k, t, Some(v), y, [(a, Some(w))], ">" + rest, rest);
  }

  /** A key right before `[`: the index list is read. */
  lemma IndexedIdentifier(s: string, k: string, x: string, list: seq<Option<Expr>>, y: string)
    requires Next(Identifier, s) == Some(Parsed(k, x)) && k != [] && x != [] && x[0] == '['
    requires IdentifierList("[", ']', x) == Ok(Parsed(list, y))
    ensures ReadIdentifier(s) == Ok(Parsed(EntityId(k, Some(list), None), y))
  {
  }

  /** A key right before `(`: the parameter list is read. */
  lemma MacroIdentifier(s: string, k: string, x: string, list: seq<Option<Expr>>, y: string)
    requires Next(Identifier, s) == Some(Parsed(k, x)) && k != [] && x != [] && x[0] == '('
    requires IdentifierList("(", ')', x) == Ok(Parsed(list, y))
    ensures ReadIdentifier(s) == Ok(Parsed(EntityId(k, None, Some(list)), y))
  {
  }

  /** `k[j]`: a key with an index of one name. */
  lemma IndexedKey(k: string, j: string, t: string)
    requires IsName(k) && IsName(j)
    ensures ReadIdentifier(k + ("[" + (j + ("]" + t)))) == Ok(Parsed(EntityId(k, Some([Some(Name(j))]), None), t))
  {
    NameThenOpener(k, "[", j + ("]" + t));
    OneNameList("[", ']', j, t);
    IndexedIdentifier(k + ("[" + (j + ("]" + t))), k, "[" + (j + ("]" + t)), [Some(Name(j))], t);
  }

  /** `k(p)`: a key with one parameter. */
  lemma ParamKey(k: string, p: string, t: string)
    requires IsName(k) && IsName(p)
    ensures ReadIdentifier(k + ("(" + (p + (")" + t)))) == Ok(Parsed(EntityId(k, None, Some([Some(Name(p))])), t))
  {
    NameThenOpener(k, "(", p + (")" + t));
    OneNameList("(", ')', p, t);
    MacroIdentifier(k + ("(" + (p + (")" + t))), k, "(" + (p + (")" + t)), [Some(Name(p))], t);
  }

  /** An indexed entity whose value is followed directly by its `>`. */
  lemma IndexedEntity(s: string, k: string, list: seq<Option<Expr>>, t: string, v: Option<Value>, u: string, w: string)
    requires ReadIdentifier(s) == Ok(Parsed(EntityId(k, Some(list), None), t)) && ReadValue(t) == Ok(Parsed(v, u))
    requires Next(Identifier, u) == None && Check(Spaced('>'), u) == Ok(Parsed(">", w))
    ensures ReadEntity(s) == Ok(Parsed((k, Complex(Some(list), if TruthyValue(v) then v else None, None)), w))
  {
    var id := EntityId(k, Some(list), None);
    IndexedBody(id, t, v, u);
    EntityOfParts(s, id, t, Complex(Some(list), if TruthyValue(v) then v else None, None), u, w);
  }

  /** `<k[j] "…">`: an indexed entity is an object with its index and no attributes. */
  lemma ReadIndexedEntity(k: string, j: string, v: Value, rest: string)
    requires IsName(k) && IsName(j) && Printable(v)
    ensures ReadEntity(k + "[" + j + "]" + Show(v) + ">" + rest) ==
      Ok(Parsed((k, Complex(Some([Some(Name(j))]), if TruthyValue(Some(v)) then Some(v) else None, None)), rest))
  {
    var u := ">" + rest;
    var t := Show(v) + u;
    Nest7(k, "[", j, "]", Show(v), ">", rest);
    IndexedKey(k, j, t);
    ReadShow(v, u);
    AtCloseAngle(rest);
    IndexedEntity(k + ("[" + (j + ("]" + t))), k, [Some(Name(j))], t, Some(v), u, rest);
  }

  /** A macro entity: its parameters, `{`, its expression, `}` and `>`. */
  lemma MacroEntity(s: string, k: string, list: seq<Option<Expr>>, t: string, x: string, e: Option<Expr>, y: string, u: string, w: string)
    requires ReadIdentifier(s) == Ok(Parsed(EntityId(k, None, Some(list)), t))
    requires Check(Spaced('{'), t) == Ok(Parsed("{", x)) && ReadExpression(x) == Ok(Parsed(e, y))
    requires Check(Spaced('}'), y) == Ok(Parsed("}", u)) && Check(Spaced('>'), u) == Ok(Parsed(">", w))
    ensures ReadEntity(s) == Ok(Parsed((k, Macro(list, e)), w))
  {
    var id := EntityId(k, None, Some(list));
    MacroBody(id, t, x, e, y, u);
    EntityOfParts(s, id, t, Macro(list, e), u, w);
  }

  /** `<k(p){q}>`: a macro with its one parameter and its expression. */
  lemma ReadMacroEntity(k: string, p: string, q: string, rest: string)
    requires IsName(k) && IsName(p) && IsName(q)
    ensures ReadEntity(k + "(" + p + ")" + "{" + q + "}" + ">" + rest) ==
      Ok(Parsed((k, Macro([Some(Name(p))], Some(Name(q)))), rest))
  {
    var u := ">" + rest;
    var y := "}" + u;
    var x := q + y;
    var t := "{" + x;
    Nest9(k, "(", p, ")", "{", q, "}", ">", rest);
    ParamKey(k, p, t);
    PunctThen('{', x);
    NameExpression(q, y);
    PunctThen('}', u);
    AtCloseAngle(rest);
    MacroEntity(k + ("(" + (p + (")" + t))), k, [Some(Name(p))], t, x, Some(Name(q)), y, u, rest);
  }

  /** A `<` right at the start opens an entity. */
  lemma EntityOpens(x: string)
    ensures NextEntity("<" + x) == Ok(Parsed(true, x))
  {
    AtOpenAngle(x);
  }

  /** One pass of the main loop: the entity after the `<` is stored, and the loop goes on after it. */
  lemma EntityStep(s: string, x: string, k: string, e: Entry, w: string, data: Props<Entry>)
    requires NextEntity(s) == Ok(Parsed(true, x)) && ReadEntity(x) == Ok(Parsed((k, e), w))
    ensures Entities(s, data) == Entities(w, Store(data, k, e))
  {
  }

  /** A text of one entity, `<` and what `ReadEntity` reads to the end: the parse holds just that entry. */
  lemma OnlyEntity(x: string, k: string, e: Entry)
    requires ReadEntity(x) == Ok(Parsed((k, e), ""))
    ensures ParseL20n("<" + x) == Ok([(k, e)])
  {
    EntityOpens(x);
    EntityStep("<" + x, x, k, e, "", []);
    StopsAtOtherCharacter("", Store([], k, e));
    StoreMovesLast([], k, e);
  }

  /** `<k>` on its own. */
  lemma ParseEmptyEntity(k: string)
    requires IsName(k)
    ensures ParseL20n("<" + (k + ">")) == Ok([(k, Plain(None))])
  {
    ReadEmptyEntity(k, "");
    assert k + ">" + "" == k + ">";
    OnlyEntity(k + ">", k, Plain(None));
  }

  /** `<k "…">` on its own. */
  lemma ParsePlainEntity(k: string, v: Value)
    requires IsName(k) && Printable(v) && !v.Arr?
    ensures ParseL20n("<" + (k + Show(v) + ">")) == Ok([(k, Plain(Some(v)))])
  {
    ReadPlainEntity(k, v, "");
    assert k + Show(v) + ">" + "" == k + Show(v) + ">";
    OnlyEntity(k + Show(v) + ">", k, Plain(Some(v)));
  }

  /** `<k[j] "…">` on its own. */
  lemma ParseIndexedEntity(k: string, j: string, v: Value)
    requires IsName(k) && IsName(j) && Printable(v)
    ensures ParseL20n("<" + (k + "[" + j + "]" + Show(v) + ">")) ==
      Ok([(k, Complex(Some([Some(Name(j))]), if TruthyValue(Some(v)) then Some(v) else None, None))])
  {
    ReadIndexedEntity(k, j, v, "");
    assert k + "[" + j + "]" + Show(v) + ">" + "" == k + "[" + j + "]" + Show(v) + ">";
    OnlyEntity(k + "[" + j + "]" + Show(v) + ">", k, Complex(Some([Some(Name(j))]), if TruthyValue(Some(v)) then Some(v) else None, None));
  }

  /** `<k "…"a:"…">` on its own. */
  lemma ParseAttributedEntity(k: string, v: Value, a: string, w: Value)
    requires IsName(k) && Printable(v) && !v.Arr? && IsName(a) && Printable(w)
    ensures ParseL20n("<" + (k + Show(v) + a + ":" + Show(w) + ">")) ==
      Ok([(k, Complex(None, if TruthyValue(Some(v)) then Some(v) else None, Some([(a, Some(w))])))])
  {
    ReadAttributedEntity(k, v, a, w, "");
    assert k + Show(v) + a + ":" + Show(w) + ">" + "" == k + Show(v) + a + ":" + Show(w) + ">";
    OnlyEntity(k + Show(v) + a + ":" + Show(w) + ">", k, Complex(None, if TruthyValue(Some(v)) then Some(v) else None, Some([(a, Some(w))])));
  }

  /** `<k(p){q}>` on its own. */
  lemma ParseMacroEntity(k: string, p: string, q: string)
    requires IsName(k) && IsName(p) && IsName(q)
    ensures ParseL20n("<" + (k + "(" + p + ")" + "{" + q + "}" + ">")) == Ok([(k, Macro([Some(Name(p))], Some(Name(q))))])
  {
    ReadMacroEntity(k, p, q, "");
    assert k + "(" + p + ")" + "{" + q + "}" + ">" + "" == k + "(" + p + ")" + "{" + q + "}" + ">";
    OnlyEntity(k + "(" + p + ")" + "{" + q + "}" + ">", k, Macro([Some(Name(p))], Some(Name(q))));
  }

  /** The main loop reads a plain entity `<k "…">` and goes on after its `>`. */
  lemma PlainEntityStep(k: string, v: Value, rest: string, data: Props<Entry>)
    requires IsName(k) && Printable(v) && !v.Arr?
    ensures Entities("<" + (k + Show(v) + ">" + rest), data) == Entities(rest, Store(data, k, Plain(Some(v))))
  {
    var x := k + Show(v) + ">" + rest;
    EntityOpens(x);
    ReadPlainEntity(k, v, rest);
    EntityStep("<" + x, x, k, Plain(Some(v)), rest, data);
  }

  /** The main loop reads a plain entity `<k "…">` at the end of the text, stores it, and stops. */
  lemma LastPlainEntity(k: string, v: Value, data: Props<Entry>)
    requires IsName(k) && Printable(v) && !v.Arr?
    ensures Entities("<" + (k + Show(v) + ">"), data) == Ok(Store(data, k, Plain(Some(v))))
  {
    assert k + Show(v) + ">" + "" == k + Show(v) + ">";
    PlainEntityStep(k, v, "", data);
    StopsAtOtherCharacter("", Store(data, k, Plain(Some(v))));
  }

  /** Storing a key twice into an empty store leaves only the second entry. */
  lemma StoreTwice(k: string, e1: Entry, e2: Entry)
    ensures Store(Store([], k, e1), k, e2) == [(k, e2)]
  {
    StoreMovesLast([], k, e1);
    StoreMovesLast([(k, e1)], k, e2);
    assert Remove([(k, e1)], k) == [];
  }

  /** `<k "…"><k "…">`: the second definition of a key replaces the first. */
  lemma DuplicateKeyLastWins(k: string, v1: Value, v2: Value)
    requires IsName(k) && Printable(v1) && !v1.Arr? && Printable(v2) && !v2.Arr?
    ensures ParseL20n("<" + (k + Show(v1) + ">" + ("<" + (k + Show(v2) + ">")))) == Ok([(k, Plain(Some(v2)))])
  {
    PlainEntityStep(k, v1, "<" + (k + Show(v2) + ">"), []);
    LastPlainEntity(k, v2, Store([], k, Plain(Some(v1))));
    StoreTwice(k, Plain(Some(v1)), Plain(Some(v2)));
  }
}
