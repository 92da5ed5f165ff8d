/**
 * `readValue` and its helpers as functions of the text still to be read:
 * each returns the value it builds and the text left after it, or the failure
 * of a `check` on the way.
 */
module Values {
  import opened Outcomes
  import opened Text
  import opened Tokens
  import opened Escapes
  import opened Props
  import opened Tree

  /**
   * `checkDelim(pos)` over the text after the opening delimiter: a one-character
   * delimiter closes at `pos` when `text[pos]` is that character; a triple one
   * when the three characters ending at `pos` spell it, which is only looked at
   * for `pos > 2`.
   */
  predicate CheckDelim(t: string, delim: string, pos: nat)
    requires IsQuote(delim)
  {
    if |delim| == 1 then pos < |t| && t[pos] == delim[0]
    else pos > 2 && pos < |t| && t[pos - 2] == delim[0] && t[pos - 1] == delim[1] && t[pos] == delim[2]
  }

  /** How the scan of `getString` ends. */
  datatype ScanEnd =
    | Closed(end: nat)   // a closer ends just before `end`, the value of `i` after the loop
    | Unclosed           // `i` reached `len` without finding a closer
    | Loops              // a `{{` with no `}}` after it: `getString` restarts at 0 forever

  /**
   * The `while` loop of `getString` from position `i` with `escapeMode == esc` and no
   * closer found yet. `len` is the length of the text before the opening delimiter was read.
   */
  function ScanLoop(t: string, delim: string, len: nat, i: nat, esc: bool): (e: ScanEnd)
    requires IsQuote(delim)
    decreases len - i
    ensures e.Closed? ==> i < e.end <= |t| && |delim| <= e.end && CheckDelim(t, delim, e.end - 1)
  {
    if i >= len then Unclosed
    else if esc then ScanLoop(t, delim, len, i + 1, false)
    else
      var found := CheckDelim(t, delim, i);
      var esc' := i < |t| && t[i] == '\\';
      if 0 < i < |t| && t[i] == '{' && t[i - 1] == '{' then
        // a `{` never closes a string, so `found` is false here
        match IndexOf(t, "}}", i)
        case None => Loops
        case Some(j) => ScanLoop(t, delim, len, j + 1, esc')
      else if found then
        assert i < |t| && |delim| <= i + 1;
        Closed(i + 1)
      else ScanLoop(t, delim, len, i + 1, esc')
  }

  /** A `{` is never a closing delimiter, so the `{{` jump only happens while no closer has been found. */
  lemma BraceNeverCloses(t: string, delim: string, i: nat)
    requires IsQuote(delim) && i < |t| && t[i] == '{'
    ensures !CheckDelim(t, delim, i)
  {
  }

  /**
   * `getString`: the decoded text between the opening delimiter and the first closer;
   * `''` with the cursor just after the opening delimiter when nothing closes it.
   */
  function GetString(s: string): (r: Result<Parsed<string>>)
    ensures r.Ok? ==> |r.value.rest| < |s|
    ensures r.Ok? ==> Next(StringDelim, s).Some? && |r.value.rest| <= |Next(StringDelim, s).value.rest|
  {
    var len := |s|;
    var d :- Check(StringDelim, s);
    assert IsQuote(d.node) by { StringDelimToken(s); }
    StringBody(d.rest, d.node, len)
  }

  /** The part of `getString` after the opening delimiter `delim`, with `t` left to read. */
  function StringBody(t: string, delim: string, len: nat): (r: Result<Parsed<string>>)
    requires IsQuote(delim)
    ensures r.Ok? ==> |r.value.rest| <= |t|
  {
    ScanResult(t, delim, ScanLoop(t, delim, len, 0, false))
  }

  /** What `getString` returns once its scan over `t` has ended as `end`. */
  function ScanResult(t: string, delim: string, end: ScanEnd): (r: Result<Parsed<string>>)
    requires IsQuote(delim)
    requires end.Closed? ==> |delim| <= end.end <= |t|
    ensures r.Ok? ==> |r.value.rest| <= |t|
  {
    match end
    case Unclosed => Ok(Parsed("", t))
    case Loops => Err(NeverTerminates)
    case Closed(i) => Ok(Parsed(EvalString(t[..i - |delim|]), t[i..]))
  }

  /** `readValue`: a string, an array or an object according to the first token; `null` (without reading) for anything else. */
  function ReadValue(s: string): (r: Result<Parsed<Option<Value>>>)
    decreases |s|, 2, 0
    ensures r.Ok? ==> |r.value.rest| <= |s|
    ensures r.Ok? ==> (r.value.node.None? <==> ValueBegin(s).None?)
    ensures r.Ok? && r.value.node.Some? ==> |r.value.rest| < |s|
    ensures r.Ok? && r.value.node.None? ==> r.value.rest == s
  {
    match ValueBegin(s)
    case None => Ok(Parsed(None, s))
    case Some(c) =>
      if c == '"' || c == '\'' then
        var v :- GetString(s);
        Ok(Parsed(Some(Str(v.node)), v.rest))
      else if c == '[' then
        var v :- GetArray(s);
        Ok(Parsed(Some(v.node), v.rest))
      else // '{'
        var v :- GetList(s);
        Ok(Parsed(Some(v.node), v.rest))
  }

  /** `getArray`: `[` and `]` around comma-separated values, a missing value giving a `null` slot. */
  function GetArray(s: string): (r: Result<Parsed<Value>>)
    decreases |s|, 1, 0
    ensures r.Ok? ==> |r.value.rest| < |s| && r.value.node.Arr?
  {
    var open :- Check(Spaced('['), s);
    match Next(Spaced(']'), open.rest)
    case Some(close) => Ok(Parsed(Arr([]), close.rest))
    case None => ArrayItems(open.rest, [])
  }

  /** The `do … while (next(reCommaSep))` loop of `getArray` after `table` holds `acc`, then the closing `]`. */
  function ArrayItems(s: string, acc: seq<Option<Value>>): (r: Result<Parsed<Value>>)
    decreases |s|, 3, 0
    ensures r.Ok? ==> |r.value.rest| < |s| && r.value.node.Arr? && |r.value.node.items| > |acc|
  {
    var v :- ReadValue(s);
    var table := acc + [v.node];
    match Next(CommaSep, v.rest)
    case Some(comma) => ArrayItems(comma.rest, table)
    case None => ArrayClose(v.rest, table)
  }

  /** The `check(reArrayEnd)` after the last value of `getArray`. */
  function ArrayClose(s: string, table: seq<Option<Value>>): (r: Result<Parsed<Value>>)
    ensures r.Ok? ==> |r.value.rest| < |s| && r.value.node == Arr(table)
  {
    var close :- Check(Spaced(']'), s);
    Ok(Parsed(Arr(table), close.rest))
  }

  /** The key `list[id]` stores under: the identifier, or `"null"` when there is none (JavaScript turns the key into a string). */
  function ListKey(id: Option<string>): string {
    if id.None? then "null" else id.value
  }

  /** `getList`: `{` and `}` around comma-separated `key: value` entries. */
  function GetList(s: string): (r: Result<Parsed<Value>>)
    decreases |s|, 1, 0
    ensures r.Ok? ==> |r.value.rest| < |s| && r.value.node.Obj?
  {
    var open :- Check(Spaced('{'), s);
    match Next(Spaced('}'), open.rest)
    case Some(close) => Ok(Parsed(Obj([]), close.rest))
    case None => ListEntries(open.rest, [])
  }

  /** One `key: value` entry of `getList`: the key `list[id]` is stored under and the value read. */
  function ListEntry(s: string): (r: Result<Parsed<(string, Option<Value>)>>)
    decreases |s|, 3, 0
    ensures r.Ok? ==> |r.value.rest| < |s|
  {
    var id := Next(Identifier, s);
    var afterId := if id.None? then s else id.value.rest;
    var colon :- Check(ColonSep, afterId);
    var v :- ReadValue(colon.rest);
    Ok(Parsed((ListKey(Node(id)), v.node), v.rest))
  }

  /** The `do … while (next(reCommaSep))` loop of `getList` after `list` holds `acc`, then the closing `}`. */
  function ListEntries(s: string, acc: Props<Option<Value>>): (r: Result<Parsed<Value>>)
    decreases |s|, 4, 0
    ensures r.Ok? ==> |r.value.rest| < |s| && r.value.node.Obj?
  {
    var e :- ListEntry(s);
    var list := Put(acc, e.node.0, e.node.1);
    match Next(CommaSep, e.rest)
    case Some(comma) => ListEntries(comma.rest, list)
    case None => ListClose(e.rest, list)
  }

  /** The `check(reListEnd)` after the last entry of `getList`. */
  function ListClose(s: string, list: Props<Option<Value>>): (r: Result<Parsed<Value>>)
    ensures r.Ok? ==> |r.value.rest| < |s| && r.value.node == Obj(list)
  {
    var close :- Check(Spaced('}'), s);
    Ok(Parsed(Obj(list), close.rest))
  }
}
