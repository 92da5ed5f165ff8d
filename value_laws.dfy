/**
 * `readValue` against a printer: a value written in the compact form
 * `"text"`, `[a,b,]`, `{key:a,other:}` reads back as that value, and
 * an object with a repeated key keeps the last assignment.
 */
module ValueLaws {
  import opened Outcomes
  import opened Text
  import opened Tokens
  import opened TokenFacts
  import opened Props
  import opened Tree
  import opened Values
  import opened StringLaws

  /** The compact source form of a value. */
  function Show(v: Value): string
    decreases v, 1
  {
    match v
    case Str(b) => "\"" + b + "\""
    case Arr(items) => "[" + ShowItems(items) + "]"
    case Obj(entries) => "{" + ShowEntries(entries) + "}"
  }

  /** An array slot or an object value: nothing at all for `null`. */
  function ShowSlot(o: Option<Value>): string
    decreases o, 2
  {
    if o.None? then "" else Show(o.value)
  }

  function ShowItems(items: seq<Option<Value>>): string
    decreases items, 0
  {
    if items == [] then ""
    else if |items| == 1 then ShowSlot(items[0])
    else ShowSlot(items[0]) + "," + ShowItems(items[1..])
  }

  function ShowEntry(e: (string, Option<Value>)): string
    decreases e, 3
  {
    e.0 + ":" + ShowSlot(e.1)
  }

  function ShowEntries(entries: Props<Option<Value>>): string
    decreases entries, 0
  {
    if entries == [] then ""
    else if |entries| == 1 then ShowEntry(entries[0])
    else ShowEntry(entries[0]) + "," + ShowEntries(entries[1..])
  }

  /**
   * The values the printer writes unambiguously: plain string bodies, names as keys,
   * objects without repeated keys, and no array `[null]` (printed as `[]`).
   */
  predicate Printable(v: Value)
    decreases v, 1
  {
    match v
    case Str(b) => PlainText(b)
    case Arr(items) => items != [None] && PrintableItems(items)
    case Obj(entries) => UniqueKeys(entries) && PrintableEntries(entries)
  }

  predicate PrintableSlot(o: Option<Value>)
    decreases o, 2
  {
    o.None? || Printable(o.value)
  }

  predicate PrintableItems(items: seq<Option<Value>>)
    decreases items, 0
  {
    items == [] || (PrintableSlot(items[0]) && PrintableItems(items[1..]))
  }

  predicate PrintableEntry(e: (string, Option<Value>))
    decreases e, 3
  {
    IsName(e.0) && PrintableSlot(e.1)
  }

  predicate PrintableEntries(entries: Props<Option<Value>>)
    decreases entries, 0
  {
    entries == [] || (PrintableEntry(entries[0]) && PrintableEntries(entries[1..]))
  }

  /** The characters that may follow a printed slot. */
  predicate SlotEnd(y: string) {
    y == [] || y[0] == ',' || y[0] == ']' || y[0] == '}'
  }

  /** A printed value starts with a quote or an opening bracket. */
  predicate OpensValue(s: string) {
    s != [] && (s[0] == '"' || s[0] == '[' || s[0] == '{')
  }

  lemma ShowOpens(v: Value)
    ensures OpensValue(Show(v))
  {
  }

  /** A printed value that is not an array opens with a quote or a brace, whatever follows it. */
  lemma ShowThen(v: Value, u: string)
    requires !v.Arr?
    ensures Show(v) + u != [] && ((Show(v) + u)[0] == '"' || (Show(v) + u)[0] == '{')
  {
    ShowOpens(v);
  }

  /** Printed items start with a value, a comma, or nothing at all. */
  lemma ItemsStart(items: seq<Option<Value>>)
    ensures ShowItems(items) == [] || OpensValue(ShowItems(items)) || ShowItems(items)[0] == ','
  {
    if items != [] && items[0].Some? {
      ShowOpens(items[0].value);
    }
  }

  /** Printed items of anything but `[]` and `[null]` are not empty. */
  lemma ItemsNotEmpty(items: seq<Option<Value>>)
    requires items != [] && items != [None]
    ensures ShowItems(items) != [] && (OpensValue(ShowItems(items)) || ShowItems(items)[0] == ',')
  {
    if items[0].Some? {
      ShowOpens(items[0].value);
    } else {
      assert |items| > 1;
    }
  }

  /** A printed slot followed by the end of the slot reads back as the slot. */
  lemma {:induction false} ReadSlot(o: Option<Value>, y: string)
    requires PrintableSlot(o) && SlotEnd(y)
    ensures ReadValue(ShowSlot(o) + y) == Ok(Parsed(o, y))
    decreases o, 2
  {
    if o.None? {
      assert ShowSlot(o) + y == y;
      ValueBeginAtStart(y);
    } else {
      ReadShow(o.value, y);
    }
  }

  /** A printed value reads back as itself, the cursor right after it. */
  lemma {:induction false} ReadShow(v: Value, rest: string)
    requires Printable(v)
    requires v == Str("") ==> rest == [] || rest[0] != '"'
    ensures ReadValue(Show(v) + rest) == Ok(Parsed(Some(v), rest))
    decreases v, 1
  {
    var s := Show(v) + rest;
    ShowOpens(v);
    assert s[0] == Show(v)[0];
    ValueBeginAtStart(s);
    match v
    case Str(b) =>
      GetStringOfPlain(b, rest);
      StringValue(s, b, rest);
    case Arr(items) =>
      ReadArray(items, rest);
      CompoundValue(s, v, rest);
    case Obj(entries) =>
      ReadObject(entries, rest);
      PutAllOfUnique(entries);
      CompoundValue(s, v, rest);
  }

  lemma StringValue(s: string, b: string, rest: string)
    requires ValueBegin(s) == Some('"') && GetString(s) == Ok(Parsed(b, rest))
    ensures ReadValue(s) == Ok(Parsed(Some(Str(b)), rest))
  {
  }

  lemma CompoundValue(s: string, v: Value, rest: string)
    requires !v.Str? && ValueBegin(s) == Some(if v.Arr? then '[' else '{')
    requires if v.Arr? then GetArray(s) == Ok(Parsed(v, rest)) else GetList(s) == Ok(Parsed(v, rest))
    ensures ReadValue(s) == Ok(Parsed(Some(v), rest))
  {
  }

  lemma {:induction false} ReadArray(items: seq<Option<Value>>, rest: string)
    requires Printable(Arr(items))
    ensures GetArray(Show(Arr(items)) + rest) == Ok(Parsed(Arr(items), rest))
    decreases Arr(items), 0
  {
    var inner := ShowItems(items) + "]" + rest;
    Opening('[', ShowItems(items), ']', rest);
    if items == [] {
      assert inner == "]" + rest;
      Closing(']', rest);
      EmptyArray(Show(Arr(items)) + rest, inner, rest);
    } else {
      ItemsNotEmpty(items);
      assert inner[0] == ShowItems(items)[0];
      NoPunct(']', inner);
      OpenArray(Show(Arr(items)) + rest, inner);
      ReadItems(items, [], rest);
      assert [] + items == items;
    }
  }

  /**
   * A printed object reads back as the assignments of its entries, one after the
   * other, to an empty object: a later entry with the same key overwrites an earlier one.
   */
  lemma {:induction false} ReadObject(entries: Props<Option<Value>>, rest: string)
    requires PrintableEntries(entries)
    ensures GetList(Show(Obj(entries)) + rest) == Ok(Parsed(Obj(PutAll([], entries)), rest))
    decreases Obj(entries), 0
  {
    var inner := ShowEntries(entries) + "}" + rest;
    Opening('{', ShowEntries(entries), '}', rest);
    if entries == [] {
      assert inner == "}" + rest;
      Closing('}', rest);
      EmptyObject(Show(Obj(entries)) + rest, inner, rest);
    } else {
      assert Next(Spaced('}'), inner) == None by {
        EntriesStart(entries);
        assert inner[0] == ShowEntries(entries)[0];
        NoPunctAtLetter('}', inner);
      }
      assert GetList(Show(Obj(entries)) + rest) == ListEntries(inner, []) by {
        OpenObject(Show(Obj(entries)) + rest, inner);
      }
      ReadEntries(entries, [], rest);
    }
  }

  /** In an object, a later entry for a key overwrites the earlier ones. */
  lemma LaterKeyWins(entries: Props<Option<Value>>, k: string, v: Option<Value>, rest: string)
    requires PrintableEntries(entries + [(k, v)])
    ensures var r := GetList(Show(Obj(entries + [(k, v)])) + rest);
      r.Ok? && r.value.node.Obj? && Get(r.value.node.entries, k) == Some(v)
  {
    ReadObject(entries + [(k, v)], rest);
    LastAssignmentWins([], entries, k, v);
  }

  /** An entry without a key is stored under `"null"`. */
  lemma MissingKeyIsNull(o: Option<Value>, y: string)
    requires PrintableSlot(o) && SlotEnd(y)
    ensures ListEntry(":" + ShowSlot(o) + y) == Ok(Parsed(("null", o), y))
  {
    var after := ShowSlot(o) + y;
    var s := ":" + after;
    assert ":" + ShowSlot(o) + y == s;
    MissAtStart(Identifier, s);
    SlotStart(o, y);
    NextColon(s);
    assert s[1..] == after;
    ReadSlot(o, y);
    KeylessEntry(s, ":", after, o, y);
  }

  lemma KeylessEntry(s: string, colon: string, after: string, x: Option<Value>, y: string)
    requires Next(Identifier, s) == None
    requires Next(ColonSep, s) == Some(Parsed(colon, after))
    requires ReadValue(after) == Ok(Parsed(x, y))
    ensures ListEntry(s) == Ok(Parsed(("null", x), y))
  {
  }

  /** A trailing comma gives a `null` slot: `["a",]` is `["a", null]`. */
  lemma TrailingCommaGivesNull()
    ensures ReadValue("[\"a\",]") == Ok(Parsed(Some(Arr([Some(Str("a")), None])), ""))
  {
    var v := Arr([Some(Str("a")), None]);
    assert ShowItems([None]) == "";
    assert ShowItems([Some(Str("a")), None]) == "\"a\",";
    assert Show(v) + "" == "[\"a\",]";
    ReadShow(v, "");
  }

  /** Without its closing `]`, an array of printed items is a syntax error. */
  lemma {:induction false} UnclosedItems(items: seq<Option<Value>>, acc: seq<Option<Value>>)
    requires items != [] && PrintableItems(items)
    ensures ArrayItems(ShowItems(items), acc) == Err(SyntaxError)
    decreases items
  {
    var x := items[0];
    if |items| == 1 {
      assert ShowItems(items) == ShowSlot(x) + "";
      ReadSlot(x, "");
      NoComma("");
      NoPunct(']', "");
      LastItemUnclosed(ShowSlot(x) + "", acc, x);
    } else {
      var tail := items[1..];
      var z := ShowItems(tail);
      var y := "," + z;
      assert ShowItems(items) == ShowSlot(x) + y;
      ReadSlot(x, y);
      ItemsStart(tail);
      NextComma(y);
      assert y[1..] == z;
      MoreItems(ShowSlot(x) + y, acc, x, y, ",", z);
      UnclosedItems(tail, acc + [x]);
    }
  }

  lemma LastItemUnclosed(s: string, acc: seq<Option<Value>>, x: Option<Value>)
    requires ReadValue(s) == Ok(Parsed(x, ""))
    requires Next(CommaSep, "") == None && Next(Spaced(']'), "") == None
    ensures ArrayItems(s, acc) == Err(SyntaxError)
  {
  }

  /** The closing `]` is required: `[` and printed items with nothing after them do not parse. */
  lemma ArrayNeedsClosingBracket(items: seq<Option<Value>>)
    requires items != [] && items != [None] && PrintableItems(items)
    ensures GetArray("[" + ShowItems(items)) == Err(SyntaxError)
  {
    var s := "[" + ShowItems(items);
    var inner := ShowItems(items);
    NextPunct('[', s);
    assert s[1..] == inner;
    ItemsNotEmpty(items);
    NoPunct(']', inner);
    OpenArray(s, inner);
    UnclosedItems(items, []);
  }

  /** The opening bracket of a printed array or object. */
  lemma Opening(open: char, body: string, close: char, rest: string)
    requires !IsSpace(open)
    ensures Next(Spaced(open), [open] + body + [close] + rest) == Some(Parsed([open], body + [close] + rest))
  {
    var s := [open] + body + [close] + rest;
    assert s == [open] + (body + [close] + rest);
    NextPunct(open, s);
    assert s[1..] == body + [close] + rest;
  }

  /** A closing bracket, with no comma before it. */
  lemma Closing(close: char, rest: string)
    requires !IsSpace(close) && close != ','
    ensures Next(CommaSep, [close] + rest) == None
    ensures Check(Spaced(close), [close] + rest) == Ok(Parsed([close], rest))
  {
    var s := [close] + rest;
    NoComma(s);
    NextPunct(close, s);
    assert s[1..] == rest;
  }

  lemma EmptyArray(s: string, inner: string, rest: string)
    requires Next(Spaced('['), s) == Some(Parsed("[", inner))
    requires Next(Spaced(']'), inner) == Some(Parsed("]", rest))
    ensures GetArray(s) == Ok(Parsed(Arr([]), rest))
  {
  }

  lemma OpenArray(s: string, inner: string)
    requires Next(Spaced('['), s) == Some(Parsed("[", inner))
    requires Next(Spaced(']'), inner) == None
    ensures GetArray(s) == ArrayItems(inner, [])
  {
  }

  lemma OpenObject(s: string, inner: string)
    requires Next(Spaced('{'), s) == Some(Parsed("{", inner))
    requires Next(Spaced('}'), inner) == None
    ensures GetList(s) == ListEntries(inner, [])
  {
  }

  lemma EmptyObject(s: string, inner: string, rest: string)
    requires Next(Spaced('{'), s) == Some(Parsed("{", inner))
    requires Next(Spaced('}'), inner) == Some(Parsed("}", rest))
    ensures GetList(s) == Ok(Parsed(Obj([]), rest))
  {
  }

  /** Printed entries start with the first key. */
  lemma EntriesStart(entries: Props<Option<Value>>)
    requires entries != [] && PrintableEntries(entries)
    ensures ShowEntries(entries) != [] && IsLetter(ShowEntries(entries)[0])
  {
    assert ShowEntries(entries)[0] == entries[0].0[0];
  }

  /** The last item of `getArray`'s loop: no comma follows, so the `]` must. */
  lemma LastItem(s: string, acc: seq<Option<Value>>, x: Option<Value>, y: string, rest: string)
    requires ReadValue(s) == Ok(Parsed(x, y))
    requires Next(CommaSep, y) == None && Check(Spaced(']'), y) == Ok(Parsed("]", rest))
    ensures ArrayItems(s, acc) == Ok(Parsed(Arr(acc + [x]), rest))
  {
  }

  /** An item of `getArray`'s loop followed by a comma. */
  lemma MoreItems(s: string, acc: seq<Option<Value>>, x: Option<Value>, y: string, comma: string, z: string)
    requires ReadValue(s) == Ok(Parsed(x, y)) && Next(CommaSep, y) == Some(Parsed(comma, z))
    ensures ArrayItems(s, acc) == ArrayItems(z, acc + [x])
  {
  }

  lemma AppendSplit<T>(acc: seq<T>, items: seq<T>)
    requires items != []
    ensures acc + [items[0]] + items[1..] == acc + items
  {
  }

  lemma AppendOne<T>(acc: seq<T>, items: seq<T>)
    requires |items| == 1
    ensures acc + [items[0]] == acc + items
  {
    assert items == [items[0]];
  }

  lemma ItemsText(items: seq<Option<Value>>, rest: string)
    requires |items| > 1
    ensures ShowItems(items) + "]" + rest == ShowSlot(items[0]) + ("," + (ShowItems(items[1..]) + "]" + rest))
  {
  }

  /** A comma and then printed items or the closing `]`. */
  lemma CommaBeforeItems(items: seq<Option<Value>>, rest: string)
    ensures var z := ShowItems(items) + "]" + rest; Next(CommaSep, "," + z) == Some(Parsed(",", z))
  {
    var z := ShowItems(items) + "]" + rest;
    ItemsStart(items);
    assert z[0] == if ShowItems(items) == [] then ']' else ShowItems(items)[0];
    NextComma("," + z);
    assert ("," + z)[1..] == z;
  }

  /**
   * The loop of `getArray` over printed items and the closing `]`: one slot per
   * comma-separated item, appended to what is already in the array.
   */
  lemma {:induction false} ReadItems(items: seq<Option<Value>>, acc: seq<Option<Value>>, rest: string)
    requires items != [] && PrintableItems(items)
    ensures ArrayItems(ShowItems(items) + "]" + rest, acc) == Ok(Parsed(Arr(acc + items), rest))
    decreases items, 0
  {
    var x := items[0];
    if |items| == 1 {
      var y := "]" + rest;
      assert ShowItems(items) + "]" + rest == ShowSlot(x) + y;
      ReadSlot(x, y);
      Closing(']', rest);
      LastItem(ShowSlot(x) + y, acc, x, y, rest);
      AppendOne(acc, items);
    } else {
      var tail := items[1..];
      var z := ShowItems(tail) + "]" + rest;
      var y := "," + z;
      ItemsText(items, rest);
      ReadSlot(x, y);
      CommaBeforeItems(tail, rest);
      MoreItems(ShowSlot(x) + y, acc, x, y, ",", z);
      ReadItems(tail, acc + [x], rest);
      AppendSplit(acc, items);
    }
  }

  /** An entry of `getList` whose key is an identifier. */
  lemma NamedEntry(s: string, k: string, z: string, colon: string, after: string, x: Option<Value>, y: string)
    requires Next(Identifier, s) == Some(Parsed(k, z))
    requires Next(ColonSep, z) == Some(Parsed(colon, after))
    requires ReadValue(after) == Ok(Parsed(x, y))
    ensures ListEntry(s) == Ok(Parsed((k, x), y))
  {
  }

  /** `key:` and then a visible character: the name and the colon are read. */
  lemma KeyAndColon(k: string, after: string)
    requires IsName(k) && (after == [] || !IsSpace(after[0]))
    ensures Next(Identifier, k + ":" + after) == Some(Parsed(k, ":" + after))
    ensures Next(ColonSep, ":" + after) == Some(Parsed(":", after))
  {
    var z := ":" + after;
    assert k + ":" + after == k + z;
    NextName(k, z);
    NextColon(z);
    assert z[1..] == after;
  }

  lemma KeyedEntry(s: string, k: string, after: string, x: Option<Value>, y: string)
    requires IsName(k) && (after == [] || !IsSpace(after[0]))
    requires s == k + ":" + after
    requires ReadValue(after) == Ok(Parsed(x, y))
    ensures ListEntry(s) == Ok(Parsed((k, x), y))
  {
    KeyAndColon(k, after);
    NamedEntry(s, k, ":" + after, ":", after, x, y);
  }

  /** A printed slot and what follows it start with a visible character. */
  lemma SlotStart(o: Option<Value>, y: string)
    requires SlotEnd(y)
    ensures var after := ShowSlot(o) + y; after == [] || !IsSpace(after[0])
  {
    if o.Some? {
      ShowOpens(o.value);
      assert (ShowSlot(o) + y)[0] == ShowSlot(o)[0];
    } else {
      assert ShowSlot(o) + y == y;
    }
  }

  /** One printed entry followed by the end of the slot reads back as that key and value. */
  lemma ReadEntry(e: (string, Option<Value>), y: string)
    requires PrintableEntry(e) && SlotEnd(y)
    ensures ListEntry(ShowEntry(e) + y) == Ok(Parsed(e, y))
    decreases e, 3
  {
    var after := ShowSlot(e.1) + y;
    SlotStart(e.1, y);
    ReadSlot(e.1, y);
    EntryText(e, y);
    KeyedEntry(ShowEntry(e) + y, e.0, after, e.1, y);
  }

  lemma EntryText(e: (string, Option<Value>), y: string)
    ensures ShowEntry(e) + y == e.0 + ":" + (ShowSlot(e.1) + y)
  {
  }

  /** The last entry of `getList`'s loop: no comma follows, so the `}` must. */
  lemma LastEntry(s: string, acc: Props<Option<Value>>, e: (string, Option<Value>), y: string, rest: string)
    requires ListEntry(s) == Ok(Parsed(e, y))
    requires Next(CommaSep, y) == None && Check(Spaced('}'), y) == Ok(Parsed("}", rest))
    ensures ListEntries(s, acc) == Ok(Parsed(Obj(Put(acc, e.0, e.1)), rest))
  {
  }

  /** An entry of `getList`'s loop followed by a comma. */
  lemma MoreEntries(s: string, acc: Props<Option<Value>>, e: (string, Option<Value>), y: string, comma: string, z: string)
    requires ListEntry(s) == Ok(Parsed(e, y)) && Next(CommaSep, y) == Some(Parsed(comma, z))
    ensures ListEntries(s, acc) == ListEntries(z, Put(acc, e.0, e.1))
  {
  }

  lemma EntriesText(entries: Props<Option<Value>>, rest: string)
    requires |entries| > 1
    ensures ShowEntries(entries) + "}" + rest == ShowEntry(entries[0]) + ("," + (ShowEntries(entries[1..]) + "}" + rest))
  {
  }

  /** A comma and then printed entries. */
  lemma CommaBeforeEntries(entries: Props<Option<Value>>, rest: string)
    requires entries != [] && PrintableEntries(entries)
    ensures var z := ShowEntries(entries) + "}" + rest; Next(CommaSep, "," + z) == Some(Parsed(",", z))
  {
    var z := ShowEntries(entries) + "}" + rest;
    EntriesStart(entries);
    assert z[0] == ShowEntries(entries)[0];
    NextComma("," + z);
    assert ("," + z)[1..] == z;
  }

  /**
   * The loop of `getList` over printed entries and the closing `}`: each entry is
   * assigned in turn to what is already in the object.
   */
  lemma {:induction false} ReadEntries(entries: Props<Option<Value>>, acc: Props<Option<Value>>, rest: string)
    requires entries != [] && PrintableEntries(entries)
    ensures ListEntries(ShowEntries(entries) + "}" + rest, acc) == Ok(Parsed(Obj(PutAll(acc, entries)), rest))
    decreases entries, 0
  {
    var e := entries[0];
    var acc' := Put(acc, e.0, e.1);
    assert PutAll(acc, entries) == PutAll(acc', entries[1..]);
    if |entries| == 1 {
      var y := "}" + rest;
      assert ShowEntries(entries) + "}" + rest == ShowEntry(e) + y;
      ReadEntry(e, y);
      Closing('}', rest);
      LastEntry(ShowEntry(e) + y, acc, e, y, rest);
      assert PutAll(acc', entries[1..]) == acc';
    } else {
      var tail := entries[1..];
      var z := ShowEntries(tail) + "}" + rest;
      var y := "," + z;
      EntriesText(entries, rest);
      ReadEntry(e, y);
      CommaBeforeEntries(tail, rest);
      MoreEntries(ShowEntry(e) + y, acc, e, y, ",", z);
      ReadEntries(tail, acc', rest);
    }
  }

  /** Without its closing `}`, an object of printed entries is a syntax error. */
  lemma {:induction false} UnclosedEntries(entries: Props<Option<Value>>, acc: Props<Option<Value>>)
    requires entries != [] && PrintableEntries(entries)
    ensures ListEntries(ShowEntries(entries), acc) == Err(SyntaxError)
    decreases entries
  {
    var e := entries[0];
    if |entries| == 1 {
      assert ShowEntries(entries) == ShowEntry(e) + "";
      ReadEntry(e, "");
      NoComma("");
      NoPunct('}', "");
      LastEntryUnclosed(ShowEntry(e) + "", acc, e);
    } else {
      var tail := entries[1..];
      var z := ShowEntries(tail);
      var y := "," + z;
      assert ShowEntries(entries) == ShowEntry(e) + y;
      ReadEntry(e, y);
      EntriesStart(tail);
      NextComma(y);
      assert y[1..] == z;
      MoreEntries(ShowEntry(e) + y, acc, e, y, ",", z);
      UnclosedEntries(tail, Put(acc, e.0, e.1));
    }
  }

  lemma LastEntryUnclosed(s: string, acc: Props<Option<Value>>, e: (string, Option<Value>))
    requires ListEntry(s) == Ok(Parsed(e, ""))
    requires Next(CommaSep, "") == None && Next(Spaced('}'), "") == None
    ensures ListEntries(s, acc) == Err(SyntaxError)
  {
  }

  /** The closing `}` is required: `{` and printed entries with nothing after them do not parse. */
  lemma ObjectNeedsClosingBrace(entries: Props<Option<Value>>)
    requires entries != [] && PrintableEntries(entries)
    ensures GetList("{" + ShowEntries(entries)) == Err(SyntaxError)
  {
    var s := "{" + ShowEntries(entries);
    var inner := ShowEntries(entries);
    NextPunct('{', s);
    assert s[1..] == inner;
    EntriesStart(entries);
    NoPunct('}', inner);
    OpenObject(s, inner);
    UnclosedEntries(entries, []);
  }
}
