// The attributes of an entity, `name: value` pairs after its value, read by `getAttributes`.

module AttributeLaws {
  import opened Outcomes
  import opened Text
  import opened Tokens
  import opened TokenFacts
  import opened Props
  import opened Tree
  import opened Values
  import opened LolParser
  import opened ValueLaws

  /** The attributes begin with the identifier ahead. */
  lemma FirstAttribute(s: string, a: string, c: string)
    requires Next(Identifier, s) == Some(Parsed(a, c))
    ensures ReadAttributes(s) == AttributeLoop(a, c, [])
  {
  }

  /** The last attribute of the loop: its `:`, its value, and no identifier after it. */
  lemma LastAttribute(a: string, s: string, acc: Props<Option<Value>>, c: string, x: string, v: Option<Value>, u: string)
    requires Check(ColonSep, s) == Ok(Parsed(c, x)) && ReadValue(x) == Ok(Parsed(v, u))
    requires Next(Identifier, u) == None
    ensures AttributeLoop(a, s, acc) == Ok(Parsed(Some(Put(acc, a, v)), u))
  {
  }

  /** The attributes are one `a: value` pair: the identifier, its `:`, its value, and no identifier after. */
  lemma SingleAttribute(s: string, a: string, c: string, colon: string, x: string, w: Value, u: string)
    requires Next(Identifier, s) == Some(Parsed(a, c)) && Check(ColonSep, c) == Ok(Parsed(colon, x))
    requires ReadValue(x) == Ok(Parsed(Some(w), u)) && Next(Identifier, u) == None
    ensures ReadAttributes(s) == Ok(Parsed(Some([(a, Some(w))]), u))
  {
    FirstAttribute(s, a, c);
    LastAttribute(a, c, [], colon, x, Some(w), u);
    assert Put([], a, Some(w)) == [(a, Some(w))];
  }

  /** One attribute `a:` and a printed value, up to the `>`. */
  lemma OneAttribute(a: string, w: Value, rest: string)
    requires IsName(a) && Printable(w)
    ensures ReadAttributes(a + (":" + (Show(w) + (">" + rest)))) == Ok(Parsed(Some([(a, Some(w))]), ">" + rest))
  {
    var u := ">" + rest;
    var x := Show(w) + u;
    var c := ":" + x;
    assert Next(Identifier, a + c) == Some(Parsed(a, c)) by {
      NextName(a, c);
    }
    assert Check(ColonSep, c) == Ok(Parsed(":", x)) by {
      ShowOpens(w);
      assert x[0] == Show(w)[0];
      ColonThen(x);
    }
    ReadShow(w, u);
    AtCloseAngle(rest);
    SingleAttribute(a + c, a, c, ":", x, w, u);
  }
}
