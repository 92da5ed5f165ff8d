# parseL20n in Dafny

A model of `parseL20n`, the recursive-descent parser of the L20n localization-resource
format in `parse-l20n.js`. The parser turns one resource text into a dictionary of
entities and macros:

- `<key "value" attr: "x">` is an entity with a value and attributes;
- `<key[expr, ...] ...>` is an indexed entity;
- `<key(expr, ...) { expression }>` is a macro;
- `/* ... */` comments may come between them.

The model has two layers.

**Specification layer.** The grammar rules are pure functions of the text still to be read. Each returns `Result<Parsed<T>>`: the node it builds and the text left after it, or the error that aborts the whole parse. They mirror the closures of `parseL20n` one by one, with the same branches, in the same order, and with the same JavaScript quirks:

- The truthiness of `0`, `''` and `null`.
- `list[null]` stores under the key `"null"`.
- A trailing comma gives a `null` slot.
- A triple-quote closer counts only at a position above 2.
- The `{{ ... }}` jump searches the rest of the whole text.
- `readIdentifier` looks at the very next character.
- A redefined entity key is deleted and then assigned again, which moves it last.

The files are:

| file | contents |
|---|---|
| `text.dfy` | whitespace, word and digit classes, greedy prefix lengths, `indexOf` |
| `tokens.dfy`, `token_facts.dfy` | one prefix matcher per regular expression, `next` and `check` |
| `escapes.dfy` | `evalString` |
| `props.dfy` | JavaScript objects as ordered key/value lists with assignment and `delete` |
| `values.dfy` | `readValue`, `getString`, `getArray`, `getList` |
| `expressions.dfy` | `readExpression` and its helpers |
| `entities.dfy` | `readIdentifier`, `nextEntity`, `readAttributes`, the entity loop of `lolParser` |

**Imperative layer.** `parser.dfy` holds the parser as the JavaScript code runs it. Class `L20nParser` has the cursor fields `text` and `parsedText`. Each closure of `parseL20n` is a method that consumes `text` step by step. Its loops are `while` loops with invariants:

- the `getString` scan;
- the `do … while` loops of arrays, objects, argument lists and identifier lists;
- the member chain of `getMember`;
- the attribute loop;
- the main entity loop.

Every method is proved to return what the matching specification function returns, and to leave `text` where that function says. Every method also keeps `parsedText + text` equal to the input. `Parser.ParseL20n` builds a parser over the text and runs its main loop.

**Proof layer.** The properties the parser promises are stated as lemmas over the specification layer, in the `*_laws.dfy` files, `last_wins.dfy` and `token_facts.dfy`:

- printed values read back;
- duplicate keys: for any text, the entry kept for a key is that of its last entity;
- what each kind of entity is stored as: a bare value, an object with index, value and attributes, or a macro;
- right-nested binary and logical chains;
- the member-access spellings that agree;
- where lists may follow an identifier;
- how `{{…}}` placeholders inside strings are jumped over, closed or not, in `placeholder_laws.dfy`;
- where parsing stops.

A few behaviours of the code differ from what an L20n author might expect. The model follows the code:

- An unclosed string is not an error. `getString` returns `''` and leaves the cursor just after the opening delimiter.
- A trailing comma in an array or object is accepted and gives a `null` slot.
- A parameter list holds at least one, possibly `null`, expression: `()` is `[null]`.
- Strings are never split into parts, because `readValue` calls `getString`.

## Model

| member | source | states |
|---|---|---|
| Text.SpaceLength | parse-l20n.js:36 | the greedy `\s*`: the prefix it takes is all whitespace and the next character is not whitespace |
| Text.WordLength | parse-l20n.js:51-52 | the greedy `\w*`: the prefix it takes is all word characters and the next character is not one |
| Text.DigitLength | parse-l20n.js:208 | the leading run of decimal digits that `parseInt` reads, stopping at the first non-digit |
| Text.StripSpace | parse-l20n.js:36 | `replace(/^\s*/, '')` removes an all-whitespace prefix and leaves a text that does not start with whitespace |
| Text.IndexOf | parse-l20n.js:94 | `indexOf` reports a position at or after `from` where the pattern fits in the text |
| Text.IndexOfFindsFirst | parse-l20n.js:94 | `indexOf` returns the first occurrence at or after `from`, and -1 exactly when there is none |
| Text.SpaceLengthOfPrefix | parse-l20n.js:33-36 | cutting a text anywhere past its leading whitespace keeps that whitespace |
| Text.StripSpaceOfPrefix | parse-l20n.js:33-36 | stripping a matched prefix leaves the prefix without its leading whitespace |
| Text.SpaceLengthOfBlankPrefix | parse-l20n.js:51-56 | whitespace put in front of a text adds exactly its length to what `\s*` takes |
| Tokens.TokenLengthBound | parse-l20n.js:51-56 | a pattern takes no more than the text and never starts on whitespace |
| Tokens.Exec | parse-l20n.js:28-32 | `re.exec(text)` matches a non-empty part of the text, at index 0 for every pattern but the comment closer |
| Tokens.ExecSpaced | parse-l20n.js:51-56 | an anchored `^\s*` match starts at index 0 and fits in the text |
| Tokens.ExecIsSpaced | parse-l20n.js:31-32 | every pattern except the comment closer and the bare punctuation is anchored and skips whitespace |
| Tokens.ValueBegin | parse-l20n.js:55 | `reValueBegin` matches exactly when the first visible character is a quote or an opening bracket, and reports that character |
| Tokens.Next | parse-l20n.js:27-37 | `next` finds nothing exactly when the pattern does not match; on a match it consumes at least one character and returns a token that is non-empty and starts with a visible character |
| Tokens.MatchedTextNotBlank | parse-l20n.js:29-36 | a match never strips down to the empty string, so `check` never fails on a match |
| Tokens.Check | parse-l20n.js:44-48 | `check` fails with a syntax error exactly when `next` returns null |
| Tokens.NextOfSpaced | parse-l20n.js:33-36 | on an anchored match `next` returns the matched text after its whitespace and leaves the text after the match |
| Tokens.NextOfMatch | parse-l20n.js:33-36 | on a match at `index` of length `len`, `next` leaves exactly the text after `index + len` |
| Tokens.StringDelimToken | parse-l20n.js:56 | the delimiter `getString` reads is one of `'''`, `"""`, `'`, `"` |
| Tokens.DelimiterSpelling | parse-l20n.js:56 | `reStringDelim` matches one of the four quote spellings |
| Tokens.BareRejectsLeadingSpace | parse-l20n.js:218-242 | the member-access punctuation and the call's `)` are not found behind whitespace |
| TokenFacts.NextAtStart | parse-l20n.js:27-37 | a pattern that matches at a visible first character reads exactly the characters it matches |
| TokenFacts.NextOneAtStart | parse-l20n.js:27-37 | a one-character match at a visible first character reads that character |
| TokenFacts.MissAtStart | parse-l20n.js:27-30 | a pattern that does not match at a visible first character reads nothing |
| TokenFacts.NextPunct | parse-l20n.js:150-163 | a bracket at the start of the text is read as itself |
| TokenFacts.NoPunct | parse-l20n.js:152-164 | a bracket is not found in front of another visible character |
| TokenFacts.NextComma | parse-l20n.js:54 | `reCommaSep` reads a comma followed by a visible character |
| TokenFacts.CommaLength | parse-l20n.js:54 | such a comma is matched with length 1 |
| TokenFacts.NextColon | parse-l20n.js:53 | `reColonSep` reads a colon followed by a visible character |
| TokenFacts.ColonLength | parse-l20n.js:53 | such a colon is matched with length 1 |
| TokenFacts.NoComma | parse-l20n.js:54 | no comma is found in front of another visible character |
| TokenFacts.PunctThen | parse-l20n.js:27-48 | a visible punctuation character at the start of the text is found, and `check` reads it |
| TokenFacts.AtCloseAngle | parse-l20n.js:355-400 | at a `>` no attribute name starts, no value begins, and the closing `check` reads it |
| TokenFacts.AtOpenAngle | parse-l20n.js:349-352 | at a `<` no comment opens and the entity delimiter is read |
| TokenFacts.ColonThen | parse-l20n.js:53 | `check(reColonSep)` reads a colon followed by a visible character |
| TokenFacts.NameThenOpener | parse-l20n.js:317-332 | the key of an identifier stops at the `[` or `(` that opens its list right after it |
| TokenFacts.NoPunctAtLetter | parse-l20n.js:27-37 | a punctuation pattern other than a letter is not found at a letter |
| TokenFacts.NextDigit | parse-l20n.js:206-208 | one digit followed by no word character is a whole `reNumber` token, and `parseInt` gives its value |
| TokenFacts.DigitValue | parse-l20n.js:208 | `parseInt` of one digit is the value of that digit |
| TokenFacts.NoSignBeforeDigit | parse-l20n.js:260-264 | no unary operator is read in front of a digit |
| TokenFacts.MinusOperator | parse-l20n.js:261 | `-` in front of a visible character is read as the binary operator `-` |
| TokenFacts.EndHasNoOperator | parse-l20n.js:261-273 | no binary operator is found at the end of the text |
| TokenFacts.WordLengthOfWord | parse-l20n.js:51 | `\w*` takes a whole run of word characters and stops at the first non-word character |
| TokenFacts.NextName | parse-l20n.js:51 | `reIdentifier` reads a whole name and stops at the first non-word character |
| TokenFacts.NextBare | parse-l20n.js:218-238 | bare punctuation at the start of the text is read as itself |
| TokenFacts.NoBareAt | parse-l20n.js:218-238 | bare punctuation is not found at any other character |
| TokenFacts.ValueBeginAtStart | parse-l20n.js:55 | at a visible first character, `reValueBegin` matches exactly a quote or an opening bracket |
| Escapes.ReplaceEscape | parse-l20n.js:61-70 | one `replace(/\\c/g, y)` never lengthens the text and leaves a backslash-free text unchanged |
| Escapes.EvalString | parse-l20n.js:60-71 | `evalString` never lengthens the text and leaves a backslash-free text unchanged |
| Escapes.ReplaceChangesIffOccurs | parse-l20n.js:61-70 | a rewrite changes the text exactly when its two-character pattern occurs, and then shortens it |
| Escapes.EscapedBackslashThenN | parse-l20n.js:61-62 | the rewrites run in order, so an escaped backslash followed by `n` becomes a line feed |
| Escapes.LineFeedEscape | parse-l20n.js:62 | `a\nb` in the resource decodes to `a`, line feed, `b` |
| Props.Keys | parse-l20n.js:166-170 | the keys of an object, one per entry |
| Props.KeysInOrder | parse-l20n.js:166-170 | the keys come in insertion order: the `i`-th key is the key of the `i`-th entry |
| Props.Get | parse-l20n.js:170 | reading a key finds a value exactly when the key is present, and the value is that key's entry |
| Props.PutGet | parse-l20n.js:170 | after `obj[k] = v`, `obj[k]` is `v` and every other key reads as before |
| Props.PutKeys | parse-l20n.js:170 | assigning an existing key keeps the key order, and a new key is appended |
| Props.PutUnique | parse-l20n.js:170 | assignment keeps the keys distinct |
| Props.RemoveGet | parse-l20n.js:373-374 | after `delete obj[k]`, `obj[k]` is absent and every other key reads as before |
| Props.RemoveKeys | parse-l20n.js:373-374 | `delete` takes exactly its key out of the keys |
| Props.RemoveAbsent | parse-l20n.js:373-374 | `delete` of a key that is not present changes nothing, so the guard `key in lolData` changes no result |
| Props.RemoveUnique | parse-l20n.js:373-374 | `delete` keeps the keys distinct |
| Props.PutFresh | parse-l20n.js:170 | assigning a new key appends the entry |
| Props.PutAllFresh | parse-l20n.js:166-171 | assigning distinct new keys one after the other appends them in order |
| Props.PutAllOfUnique | parse-l20n.js:166-171 | entries with distinct keys are rebuilt by assigning them to an empty object |
| Props.PutAllSnoc | parse-l20n.js:166-171 | one more assignment after a run of assignments is one more `Put` |
| Props.LastAssignmentWins | parse-l20n.js:166-171 | of several assignments to one key, the last one wins |
| Values.ScanLoop | parse-l20n.js:86-97 | the scan of `getString`, when it stops on a closer, stops just past a position where `checkDelim` holds, inside the text and no earlier than the delimiter's length |
| Values.BraceNeverCloses | parse-l20n.js:79-93 | a `{` never closes a string, so the `{{` jump only happens while no closer has been found |
| Values.GetString | parse-l20n.js:72-104 | a successful `getString` has read an opening delimiter and leaves no more than the text after it, so it consumes at least that delimiter |
| Values.StringBody | parse-l20n.js:86-103 | the part of `getString` after the delimiter never moves the cursor back |
| Values.ScanResult | parse-l20n.js:98-103 | whatever way the scan ends, the cursor never moves back |
| Values.ReadValue | parse-l20n.js:176-194 | `readValue` returns `null` exactly when no value begins, reading nothing then, and otherwise consumes text |
| Values.GetArray | parse-l20n.js:149-160 | a successful `getArray` consumes text and yields an array |
| Values.ArrayItems | parse-l20n.js:155-159 | the `do … while` loop of `getArray` and its closing `]` consume text and add at least one slot to the table |
| Values.ArrayClose | parse-l20n.js:158-159 | the required `]` consumes text and yields the table read so far |
| Values.GetList | parse-l20n.js:161-174 | a successful `getList` consumes text and yields an object |
| Values.ListEntry | parse-l20n.js:168-170 | one `id: value` entry consumes text |
| Values.ListEntries | parse-l20n.js:166-173 | the `do … while` loop of `getList` and its closing `}` consume text and yield an object |
| Values.ListClose | parse-l20n.js:172-173 | the required `}` consumes text and yields the object read so far |
| StringLaws.FirstCloser | parse-l20n.js:86-97 | reference definition: the first position where an unescaped closer ends, or none |
| StringLaws.ScanBound | parse-l20n.js:86-97 | where the scan from `i` stops when no `{{` intervenes: just past the first closer, or the end of the text; never before `i`, and past it while text remains |
| StringLaws.EscapedNeverCloses | parse-l20n.js:88-92 | the character right after an unescaped backslash never closes the string |
| StringLaws.ScanPastEnd | parse-l20n.js:87 | past the end of the text the scan runs out without a closer |
| StringLaws.ScanStep | parse-l20n.js:87-96 | without `{{`, one step of the scan either stops past a closer or moves on by one |
| StringLaws.ScanFindsFirstCloser | parse-l20n.js:86-97 | when no `{{` ends before the point where the scan would stop, the scan stops just past the first unescaped closer, or runs out when there is none; a `{{` later in the text does not matter |
| StringLaws.GetStringAfterDelim | parse-l20n.js:75-78 | `getString` is the scan over the text after the delimiter, with `len` taken before the delimiter was read |
| StringLaws.ReadToCloser | parse-l20n.js:98-104 | reference definition of what `getString` returns once its scan, from `a` on, stops at the first closer after `a`: the decoded text before that closer and the cursor just past it, or `''` and the cursor unmoved; never an error |
| StringLaws.ResumeAtFirstCloser | parse-l20n.js:86-103 | when the scan from the start goes on as the scan from `a` out of escape mode, and no `{{` ends from `a` up to the first closer, the string is what ReadToCloser from `a` says |
| StringLaws.CloserResult | parse-l20n.js:98-103 | a scan that ends as the first closer from `a` says leaves the cursor past the delimiter and inside the text, and gives the result ReadToCloser describes |
| StringLaws.StringBodyFirstCloser | parse-l20n.js:86-103 | when no `{{` ends before the first closer, the string is the decoded text up to that closer with the cursor just past it, or `''` with the cursor unmoved when nothing closes it |
| StringLaws.GetStringReadsToFirstCloser | parse-l20n.js:72-104 | when no `{{` ends before the first closer, `getString` returns the decoded text up to the first unescaped closer with the cursor just past it, or `''` with the cursor just after the opening delimiter |
| StringLaws.OpeningQuote | parse-l20n.js:56 | a double quote that does not begin a triple one is read as the delimiter `"` |
| StringLaws.QuoteLength | parse-l20n.js:56 | such a quote is matched with length 1 |
| StringLaws.LeadingPlaceholderLoops | parse-l20n.js:72-104 | `"{{` with no `}}` anywhere after it: `getString` never terminates |
| StringLaws.PlaceholderLoops | parse-l20n.js:93-94 | a body starting with `{{` and without any `}}` never terminates |
| StringLaws.ScanPlain | parse-l20n.js:86-97 | the scan over a plain body followed by `"` stops just past that quote |
| StringLaws.PlainBody | parse-l20n.js:98-103 | a plain body and its closing quote read back as the body |
| StringLaws.GetStringOfPlain | parse-l20n.js:72-104 | `"b"` with a plain body reads as `b`, the cursor just past the closing quote |
| PlaceholderLaws.FirstBrace | parse-l20n.js:93 | reference definition: the first position at or after `i` where a `{{` ends; none ends before it, and none at all when it is absent |
| PlaceholderLaws.FirstBraceAt | parse-l20n.js:93 | a `{{` ending at `q` with none ending in `[i, q)` is the first one from `i` |
| PlaceholderLaws.ReachesFirstBrace | parse-l20n.js:86-97 | the first `{{` from `i`, with no closer before it, is reached by the scan from `i` |
| PlaceholderLaws.ScanToBrace | parse-l20n.js:86-97 | up to the next `{{`, passing no closer, the scan arrives there out of escape mode |
| PlaceholderLaws.BraceJump | parse-l20n.js:93-96 | at a `{{` the scan jumps to the next `}}` and goes on just after it, out of escape mode |
| PlaceholderLaws.ReachFirst | parse-l20n.js:86-97 | when the `{{` the scan reaches is the first one from `i`, the scan arrives there out of escape mode |
| PlaceholderLaws.ReachJump | parse-l20n.js:93-96 | on the way to a later `{{`, the scan jumps from the first `{{` to the `}}` after it and goes on from there |
| PlaceholderLaws.ScanFollowsReach | parse-l20n.js:86-97 | a scan that reaches the `{{` at `q`, after any number of closed `{{…}}` jumps, is from then on the scan from `q` |
| PlaceholderLaws.ScanSkipsPlaceholder | parse-l20n.js:93-96 | when the scan reaches a `{{`, after any number of earlier jumps, and a `}}` follows it, the scan goes on just after that `}}`, whatever lies in between |
| PlaceholderLaws.ScanReachesPlaceholder | parse-l20n.js:86-97 | a scan that reaches a `{{`, after any number of earlier jumps, with no `}}` from there on, restarts for ever |
| PlaceholderLaws.UnclosedPlaceholder | parse-l20n.js:72-104 | when the scan of `getString` reaches a `{{`, after any number of closed `{{…}}` jumps, and no `}}` occurs from there on, `getString` has the outcome for which `parseL20n` never terminates |
| PlaceholderLaws.GetStringJumpsPlaceholder | parse-l20n.js:72-104 | when the scan reaches a `{{`, jumps to the `}}` after it and meets no further `{{` up to the first closer, `getString` returns the decoded text up to that closer, delimiters inside the placeholder included, or `''` with the cursor unmoved when nothing closes the string after the jump |
| PlaceholderLaws.StringBodyJumpsPlaceholder | parse-l20n.js:86-103 | the same for the part after the delimiter |
| PlaceholderLaws.OpeningOfPlaceholder | parse-l20n.js:56 | `"a{{…` with `a` plain opens with the single delimiter `"` |
| PlaceholderLaws.ReachesAfterPlain | parse-l20n.js:86-97 | in `a{{b}}c"…` with `a` plain the scan reaches the `{{` right after `a` |
| PlaceholderLaws.IndexOfIs | parse-l20n.js:94 | `indexOf` finds a pattern at the first position from `from` where it occurs |
| PlaceholderLaws.ClosingBraces | parse-l20n.js:94 | in `a{{b}}c"…` with no `}` in `b`, the `}}` found after the `{{` is the one right after `b` |
| PlaceholderLaws.QuoteAfterBraces | parse-l20n.js:86-97 | in `a{{b}}c"…` with `c` plain, the first closer after the `}}` is the quote after `c`, with no `{{` up to it |
| PlaceholderLaws.ReadUpToQuote | parse-l20n.js:98-103 | a backslash-free text up to the first closing quote reads back as itself, the cursor past the quote |
| PlaceholderLaws.PlaceholderNoBackslash | parse-l20n.js:98-103 | `a{{b}}c` built from backslash-free parts holds no backslash |
| PlaceholderLaws.ReadPastBraces | parse-l20n.js:98-103 | after the jump in `a{{b}}c"rest`, the string read is `a{{b}}c` and `rest` is left |
| PlaceholderLaws.GetStringOfPlaceholder | parse-l20n.js:72-104 | `"a{{b}}c"` with plain `a` and `c` and no `}` or backslash in `b` reads as `a{{b}}c`, the placeholder kept verbatim even when `b` holds a quote |
| PlaceholderLaws.ReadOfJump | parse-l20n.js:72-104 | the stages of the scan over a placeholder string, put together, give what `getString` returns |
| ValueLaws.ReadSlot | parse-l20n.js:176-194 | a printed slot followed by `,`, `]`, `}` or the end reads back as the slot, `null` for nothing |
| ValueLaws.ReadShow | parse-l20n.js:59-195 | every printable value reads back as itself, the cursor right after it |
| ValueLaws.StringValue | parse-l20n.js:181-184 | a quote dispatches `readValue` to `getString` |
| ValueLaws.CompoundValue | parse-l20n.js:187-192 | `[` dispatches `readValue` to `getArray` and `{` to `getList` |
| ValueLaws.ReadArray | parse-l20n.js:149-160 | a printed array reads back as itself |
| ValueLaws.ReadObject | parse-l20n.js:161-174 | a printed object reads back as its entries assigned one after the other |
| ValueLaws.LaterKeyWins | parse-l20n.js:170 | in an object, a later entry for a key overwrites the earlier ones |
| ValueLaws.MissingKeyIsNull | parse-l20n.js:168-170 | an entry without a key is stored under `"null"` |
| ValueLaws.KeylessEntry | parse-l20n.js:168-170 | without an identifier, `list[id]` stores the value read after the colon token, whitespace after it included, under `"null"` |
| ValueLaws.TrailingCommaGivesNull | parse-l20n.js:155-157 | `["a",]` gives `["a", null]` |
| ValueLaws.UnclosedItems | parse-l20n.js:155-158 | printed items with no closing `]` are a syntax error |
| ValueLaws.LastItemUnclosed | parse-l20n.js:158 | a last item at the end of the text is a syntax error |
| ValueLaws.ArrayNeedsClosingBracket | parse-l20n.js:149-160 | `[` and printed items with nothing after them do not parse |
| ValueLaws.UnclosedEntries | parse-l20n.js:166-173 | printed entries with no closing `}` are a syntax error |
| ValueLaws.LastEntryUnclosed | parse-l20n.js:172-173 | a last entry at the end of the text is a syntax error |
| ValueLaws.ObjectNeedsClosingBrace | parse-l20n.js:161-174 | `{` and printed entries with nothing after them do not parse |
| ValueLaws.EmptyArray | parse-l20n.js:151-153 | `[` then `]` yields `[]` |
| ValueLaws.OpenArray | parse-l20n.js:151-155 | `[` without `]` after it starts the item loop with an empty table |
| ValueLaws.OpenObject | parse-l20n.js:163-166 | `{` without `}` after it starts the entry loop with an empty object |
| ValueLaws.EmptyObject | parse-l20n.js:163-165 | `{` then `}` yields `{}` |
| ValueLaws.LastItem | parse-l20n.js:155-159 | the last item, without a comma after it, needs the `]` and is appended |
| ValueLaws.MoreItems | parse-l20n.js:155-157 | an item followed by a comma token, whitespace after it included, is appended and the loop goes on after that token |
| ValueLaws.ReadItems | parse-l20n.js:155-159 | printed items and `]` are read into the table in order |
| ValueLaws.NamedEntry | parse-l20n.js:168-170 | an entry whose key is an identifier reads the key, the colon token with any whitespace after it, and the value |
| ValueLaws.KeyedEntry | parse-l20n.js:168-170 | `key:` followed by a visible character reads as that key and the value after the colon |
| ValueLaws.ReadEntry | parse-l20n.js:168-170 | one printed entry reads back as its key and value |
| ValueLaws.LastEntry | parse-l20n.js:167-173 | the last entry, without a comma after it, needs the `}` and is assigned |
| ValueLaws.MoreEntries | parse-l20n.js:167-171 | an entry followed by a comma token, whitespace after it included, is assigned and the loop goes on after that token |
| ValueLaws.ReadEntries | parse-l20n.js:166-173 | printed entries and `}` are assigned in order |
| Expressions.GetPrimary | parse-l20n.js:200-215 | `getPrimary` never moves the cursor back, and a primary it finds consumes text |
| Expressions.Selector | parse-l20n.js:218-233 | the selector of an access consumes text whenever it finds one |
| Expressions.GetAttr | parse-l20n.js:216-225 | an attribute access consumes text |
| Expressions.GetProp | parse-l20n.js:226-235 | a property access consumes text |
| Expressions.GetCall | parse-l20n.js:236-246 | a call consumes text |
| Expressions.CallArguments | parse-l20n.js:239-243 | after `(`, a call always yields a node and consumes text |
| Expressions.ExpressionList | parse-l20n.js:239-241 | the `do … while` list gets at least one more element than it started with |
| Expressions.MemberStep | parse-l20n.js:251-254 | a member access found consumes text, so the chain ends |
| Expressions.MemberLoop | parse-l20n.js:252-256 | the member chain never moves the cursor back |
| Expressions.GetMember | parse-l20n.js:247-257 | `getMember` never moves the cursor back |
| Expressions.GetUnary | parse-l20n.js:263-270 | `getUnary` never moves the cursor back |
| Expressions.GetBinary | parse-l20n.js:271-281 | `getBinary` never moves the cursor back |
| Expressions.GetLogical | parse-l20n.js:282-292 | `getLogical` never moves the cursor back |
| Expressions.GetConditional | parse-l20n.js:293-308 | `getConditional` never moves the cursor back |
| Expressions.ReadExpression | parse-l20n.js:198-312 | `readExpression` never moves the cursor back |
| ExpressionLaws.PrimaryShape | parse-l20n.js:200-215 | a primary is never an operator node |
| ExpressionLaws.AttrWraps | parse-l20n.js:224 | an attribute access has the running expression as its `primary` |
| ExpressionLaws.PropWraps | parse-l20n.js:234 | a property access has the running expression as its `primary` |
| ExpressionLaws.CallWraps | parse-l20n.js:243 | a call has the running expression as its `primary` |
| ExpressionLaws.MemberStepWraps | parse-l20n.js:251 | each step of the chain wraps the running expression |
| ExpressionLaws.MemberLoopShape | parse-l20n.js:252-256 | the member chain of an operand is an operand |
| ExpressionLaws.MemberShape | parse-l20n.js:247-257 | `getMember` returns an operand, never an operator node |
| ExpressionLaws.UnaryShape | parse-l20n.js:263-270 | `getUnary` returns a member, or a unary operator over one |
| ExpressionLaws.BinaryRightNested | parse-l20n.js:271-281 | binary chains nest to the right: the left side of a binary is never a binary |
| ExpressionLaws.NumberPrimary | parse-l20n.js:200-208 | a number token with no `(` in front is a primary, its `parseInt` value |
| ExpressionLaws.NoMemberAfterOperand | parse-l20n.js:251-256 | where no `.`, `[`, `(` or word follows, the member chain ends with the running expression |
| ExpressionLaws.NumberUnary | parse-l20n.js:263-270 | a non-zero number with no operator in front and no access after it is the unary by itself |
| ExpressionLaws.BinaryLink | parse-l20n.js:271-281 | a unary, a binary operator and the rest of the chain make one binary node with the rest on its right |
| ExpressionLaws.TwoMinusThree | parse-l20n.js:271-281 | `2-3` is the binary `2 - 3` |
| ExpressionLaws.SubtractionNestsRight | parse-l20n.js:271-281 | `1-2-3` is `1 - (2 - 3)`, read to the end of the text |
| ExpressionLaws.LogicalRightNested | parse-l20n.js:282-292 | logical chains nest to the right above the binary ones |
| ExpressionLaws.ConditionalNeedsColon | parse-l20n.js:295-298 | after a `?` token, with any whitespace after it, and the first branch, a missing `:` is a syntax error |
| ExpressionLaws.FalsyPrimaryMember | parse-l20n.js:248-250 | a primary `0`, `''` or `null` makes the member `null`, its chain unread |
| ExpressionLaws.NoSelector | parse-l20n.js:218-234 | without the punctuation of a selector, nothing is read |
| ExpressionLaws.NoMemberStep | parse-l20n.js:251-254 | none of `..`, `[.`, `.`, `[`, `(`: the member chain ends without reading anything |
| ExpressionLaws.MemberNoLeadingSpace | parse-l20n.js:218-238 | whitespace before the punctuation of a member access ends the chain there |
| ExpressionLaws.NothingFollows | parse-l20n.js:260-262 | no operator starts at a closing bracket, a comma or the end of the text |
| ExpressionLaws.NoMemberAtEnd | parse-l20n.js:251-256 | no member access starts where an expression ends |
| ExpressionLaws.BinaryOfUnary | parse-l20n.js:271-281 | a unary with no binary operator after it is the binary |
| ExpressionLaws.LogicalOfBinary | parse-l20n.js:282-292 | a binary with no logical operator after it is the logical |
| ExpressionLaws.ConditionalOfLogical | parse-l20n.js:293-311 | a logical with no `?` after it is the expression |
| ExpressionLaws.UnaryIsExpression | parse-l20n.js:263-311 | a unary followed by the end of an expression is the whole expression |
| ExpressionLaws.NamePrimary | parse-l20n.js:211-213 | a bare name is a primary, the same plain string that a string literal gives |
| ExpressionLaws.MemberOfPrimary | parse-l20n.js:247-256 | a truthy primary with no member access after it is the member |
| ExpressionLaws.UnaryOfMember | parse-l20n.js:263-270 | without an operator, `getUnary` is `getMember` |
| ExpressionLaws.EndOfChain | parse-l20n.js:253-256 | when no access follows, the chain returns the running expression |
| ExpressionLaws.NameMember | parse-l20n.js:247-256 | a bare name followed by the end of an expression is a member without accesses |
| ExpressionLaws.NameNoUnary | parse-l20n.js:260-264 | a name never starts with a unary operator |
| ExpressionLaws.NameExpression | parse-l20n.js:211-213 | a bare name on its own is read as an expression |
| ExpressionLaws.DottedSelector | parse-l20n.js:218-229 | the dotted spelling reads the name after the punctuation |
| ExpressionLaws.BracketSelector | parse-l20n.js:220-232 | the bracket spelling reads an expression and the required `]` |
| ExpressionLaws.AttrOfSelector | parse-l20n.js:224 | a truthy selector becomes an attribute access of the primary |
| ExpressionLaws.PropOfSelector | parse-l20n.js:234 | a truthy selector becomes a property access of the primary |
| ExpressionLaws.DottedName | parse-l20n.js:218-229 | `..k` and `.k` select the name `k` |
| ExpressionLaws.BracketName | parse-l20n.js:220-232 | `[.k]` and `[k]` select the name `k` |
| ExpressionLaws.NameIsTruthy | parse-l20n.js:224-234 | a name is truthy |
| ExpressionLaws.DottedAttr | parse-l20n.js:216-225 | `primary..k` is the attribute access of `k` |
| ExpressionLaws.BracketAttr | parse-l20n.js:216-225 | `primary[.k]` is the attribute access of `k` |
| ExpressionLaws.AttrSpellingsAgree | parse-l20n.js:216-225 | `primary..k` and `primary[.k]` build the same attribute access |
| ExpressionLaws.DottedProp | parse-l20n.js:226-235 | `primary.k` is the property access of `k` |
| ExpressionLaws.BracketProp | parse-l20n.js:226-235 | `primary[k]` is the property access of `k` |
| ExpressionLaws.PropSpellingsAgree | parse-l20n.js:226-235 | `primary.k` and `primary[k]` build the same property access |
| LolParser.IdentifierList | parse-l20n.js:322-337 | an index or parameter list holds at least one expression and consumes text |
| LolParser.ReadIdentifier | parse-l20n.js:315-342 | an identifier has a non-empty key, never both lists, and at least one expression in a list it has |
| LolParser.NextEntity | parse-l20n.js:348-352 | `nextEntity` never moves the cursor back, and consumes text when an entity opens |
| LolParser.AfterComment | parse-l20n.js:349-351 | a skipped comment consumes text |
| LolParser.EntityOpen | parse-l20n.js:352 | an entity opens exactly when a `<` token is found, and consumes it; nothing is read otherwise |
| LolParser.AttributeLoop | parse-l20n.js:359-364 | once an identifier has been read, there is at least one attribute |
| LolParser.ReadAttributes | parse-l20n.js:355-366 | `readAttributes` returns `null` exactly when no identifier follows |
| LolParser.EntityBody | parse-l20n.js:376-395 | the body never moves the cursor back; it is a macro exactly when the identifier has parameters, with those parameters; a plain value only without an index; an object keeps the index, shows an index or attributes, has a value only when it is truthy, and attributes only when there is at least one |
| LolParser.ReadEntity | parse-l20n.js:371-398 | one entity consumes text |
| EntityLaws.ListsFollowTheName | parse-l20n.js:317-339 | an index list is read exactly when the character right after the name is `[`, and a parameter list exactly when it is `(` |
| EntityLaws.SpaceBeforeBracket | parse-l20n.js:320 | with whitespace between the name and a bracket, neither list is read and the bracket is left unread |
| EntityLaws.StoreMovesLast | parse-l20n.js:373-382 | a stored entity replaces any former entry of its key and comes last |
| EntityLaws.StoreGet | parse-l20n.js:373-382 | after storing, the key holds the new entry and every other key what it held before |
| EntityLaws.StoreUnique | parse-l20n.js:373-374 | storing keeps the keys distinct |
| EntityLaws.EntitiesUnique | parse-l20n.js:370-401 | the entity loop never holds a key twice |
| EntityLaws.ParseUnique | parse-l20n.js:370-403 | the parsed dictionary never holds a key twice |
| EntityLaws.StopsWithoutEntity | parse-l20n.js:370-402 | whenever `nextEntity` reports no entity, the main loop ends successfully with what it holds, whatever text is left |
| EntityLaws.NothingOpens | parse-l20n.js:349-353 | with neither a comment nor a `<` ahead, `nextEntity` reports no entity and reads nothing |
| EntityLaws.CommentSkipped | parse-l20n.js:350-351 | a closed comment is skipped and `nextEntity` goes on after its `*/` |
| EntityLaws.UnclosedComment | parse-l20n.js:350-351 | a comment that is never closed is a syntax error of `nextEntity` and of the whole parse |
| EntityLaws.StopsAtOtherCharacter | parse-l20n.js:349-370 | at the end of the text or at a visible character other than `<` and `/`, parsing ends successfully |
| EntityLaws.PlainExactlyWhenBare | parse-l20n.js:377-390 | without parameters, the entity is stored as its bare value exactly when it has neither an index nor attributes; an object keeps the value only when truthy |
| EntityLaws.BareIdentifier | parse-l20n.js:315-341 | a name followed by neither `[` nor `(` is an identifier without lists |
| EntityLaws.PlainBody | parse-l20n.js:377-381 | a value with no attribute after it and no index is stored bare |
| EntityLaws.AttributedBody | parse-l20n.js:377-389 | attributes after the value make an object with the index, the value when truthy, and the attributes |
| EntityLaws.IndexedBody | parse-l20n.js:377-387 | an index and no attributes make an object with the index and the value when truthy |
| EntityLaws.MacroBody | parse-l20n.js:391-396 | parameters make a macro: `{`, one expression, `}` |
| EntityLaws.EntityOfParts | parse-l20n.js:371-400 | an entity is its identifier, its body and the closing `>` |
| EntityLaws.PlainEntity | parse-l20n.js:371-400 | an identifier without lists and a value followed by `>` is a plain entity |
| EntityLaws.ReadPlainEntity | parse-l20n.js:371-400 | `k` then a printed value that is not an array, then `>`: the entry is that value |
| EntityLaws.ReadEmptyEntity | parse-l20n.js:371-400 | `k>`: an entity without a value is stored as `null` |
| EntityLaws.AttributedEntity | parse-l20n.js:371-400 | an identifier without lists, a value and attributes make an object entity |
| EntityLaws.ReadAttributedEntity | parse-l20n.js:371-400 | `k`, a value and one attribute `a:` value, then `>`: an object with no index, the value when truthy, and that attribute |
| EntityLaws.IndexedIdentifier | parse-l20n.js:317-329 | a key right before `[` reads the index list |
| EntityLaws.MacroIdentifier | parse-l20n.js:317-338 | a key right before `(` reads the parameter list |
| EntityLaws.IndexedKey | parse-l20n.js:315-341 | `k[j]` is the key `k` with the index `[j]` |
| EntityLaws.ParamKey | parse-l20n.js:315-341 | `k(p)` is the key `k` with the parameter `p` |
| EntityLaws.IndexedEntity | parse-l20n.js:371-400 | an indexed identifier and a value followed by `>` make an object with the index |
| EntityLaws.ReadIndexedEntity | parse-l20n.js:371-400 | `k[j]`, a value and `>`: an object with the index `[j]`, the value when truthy, and no attributes |
| EntityLaws.MacroEntity | parse-l20n.js:371-400 | an identifier with parameters, `{`, an expression, `}` and `>` make a macro entity |
| EntityLaws.ReadMacroEntity | parse-l20n.js:371-400 | `k(p){q}>`: a macro with the parameter `p` and the expression `q` |
| EntityLaws.EntityOpens | parse-l20n.js:349-352 | a `<` at the start opens an entity |
| EntityLaws.EntityStep | parse-l20n.js:370-401 | one pass of the main loop stores the entity read after the `<` and goes on after it |
| EntityLaws.OnlyEntity | parse-l20n.js:370-402 | a text of one entity parses to that one entry |
| EntityLaws.ParseEmptyEntity | parse-l20n.js:345-410 | `<k>` parses to `{k: null}` |
| EntityLaws.ParsePlainEntity | parse-l20n.js:345-410 | `<k "…">` parses to the one plain entry |
| EntityLaws.ParseIndexedEntity | parse-l20n.js:345-410 | `<k[j] "…">` parses to one object entry with its index |
| EntityLaws.ParseAttributedEntity | parse-l20n.js:345-410 | `<k "…" a: "…">` written without spaces parses to one object entry with its attribute |
| EntityLaws.ParseMacroEntity | parse-l20n.js:345-410 | `<k(p){q}>` parses to one macro entry |
| EntityLaws.PlainEntityStep | parse-l20n.js:370-401 | the main loop reads a plain entity and goes on after its `>` |
| EntityLaws.LastPlainEntity | parse-l20n.js:370-402 | a plain entity at the end of the text is stored, and the loop stops |
| EntityLaws.StoreTwice | parse-l20n.js:373-381 | storing a key twice leaves only the second entry |
| EntityLaws.DuplicateKeyLastWins | parse-l20n.js:370-402 | `<k "…"><k "…">`: the second definition replaces the first |
| AttributeLaws.FirstAttribute | parse-l20n.js:359-360 | the attributes begin with the identifier ahead |
| AttributeLaws.LastAttribute | parse-l20n.js:360-365 | a last attribute, with no identifier after its value, is assigned and ends the loop |
| AttributeLaws.SingleAttribute | parse-l20n.js:355-366 | one `a: value` pair, with or without whitespace after the colon, is an attributes object of that one entry |
| AttributeLaws.OneAttribute | parse-l20n.js:355-366 | `a:` and a printed value before `>` read as the one attribute |
| ListLaws.SingleExpression | parse-l20n.js:325-327 | one expression without a comma after it is a list of one |
| ListLaws.ListOfParts | parse-l20n.js:322-338 | an identifier list is its opening character, its expressions and its closing one |
| ListLaws.NameThenCloser | parse-l20n.js:325-336 | a name right before `]` or `)` is a list of that one name |
| ListLaws.OneNameList | parse-l20n.js:322-338 | `[j]` or `(j)` is the list of the one name `j` |
| LastWins.LastEntryIsLast | parse-l20n.js:370-401 | reference definition: the entry `LastEntry` finds has no later entity of its key, and it finds none only when no entity has the key |
| LastWins.EntitiesStoreAll | parse-l20n.js:370-401 | the main loop stores the entities it reads, in text order, and fails exactly when reading them fails |
| LastWins.StoreAllGet | parse-l20n.js:373-381 | after a run of stores a key holds its last one, or what it held before |
| LastWins.ParseLastWins | parse-l20n.js:345-410 | for any text, the parsed entry of a key is that of the last entity of that key in the text |
| Parser.ScanJumps | parse-l20n.js:93-96 | at a `{{` with a `}}` after it, the scan specification goes on just after the `}}` |
| Parser.JumpLoops | parse-l20n.js:93-96 | at a `{{` with no `}}` after it, the scan specification is the never-ending outcome |
| Parser.ScanString | parse-l20n.js:86-97 | the `while` loop of `getString` ends as the scan specification says: past a closer, without one, or in the `{{` case that never terminates |
| Parser.L20nParser.constructor | parse-l20n.js:23-24 | the cursor starts with the whole text to read and nothing consumed |
| Parser.L20nParser.Consume | parse-l20n.js:34-35 | moving the cursor takes exactly a prefix of `text` over to `parsedText` |
| Parser.L20nParser.NextToken | parse-l20n.js:27-37 | `next` returns the token of the specification and consumes up to the end of the match; with no match it changes nothing |
| Parser.L20nParser.CheckToken | parse-l20n.js:44-48 | `check` agrees with the specification and fails exactly when `next` finds nothing |
| Parser.L20nParser.StringBody | parse-l20n.js:86-103 | the scan and the cursor advance after the delimiter agree with the specification |
| Parser.L20nParser.GetString | parse-l20n.js:72-104 | `getString` agrees with the specification of the text it starts on |
| Parser.L20nParser.ReadValue | parse-l20n.js:176-194 | `readValue` agrees with the specification |
| Parser.L20nParser.GetArray | parse-l20n.js:149-160 | the `do … while` item loop agrees with the specification |
| Parser.L20nParser.GetList | parse-l20n.js:161-174 | the `do … while` entry loop agrees with the specification |
| Parser.L20nParser.GetPrimary | parse-l20n.js:200-215 | `getPrimary` agrees with the specification |
| Parser.L20nParser.Selector | parse-l20n.js:218-233 | the shared selector of `getAttr` and `getProp` agrees with the specification |
| Parser.L20nParser.GetAttr | parse-l20n.js:216-225 | `getAttr` agrees with the specification |
| Parser.L20nParser.GetProp | parse-l20n.js:226-235 | `getProp` agrees with the specification |
| Parser.L20nParser.GetCall | parse-l20n.js:236-246 | `getCall` agrees with the specification |
| Parser.L20nParser.ExpressionList | parse-l20n.js:239-241 | the `do … while` expression loop agrees with the specification |
| Parser.L20nParser.MemberStep | parse-l20n.js:251-254 | `getAttr(p) \|\| getProp(p) \|\| getCall(p)` agrees with the specification |
| Parser.L20nParser.GetMember | parse-l20n.js:247-257 | the `while (member)` loop agrees with the specification |
| Parser.L20nParser.GetUnary | parse-l20n.js:263-270 | `getUnary` agrees with the specification |
| Parser.L20nParser.GetBinary | parse-l20n.js:271-281 | `getBinary` agrees with the specification |
| Parser.L20nParser.GetLogical | parse-l20n.js:282-292 | `getLogical` agrees with the specification |
| Parser.L20nParser.GetConditional | parse-l20n.js:293-308 | `getConditional` agrees with the specification |
| Parser.L20nParser.ReadExpression | parse-l20n.js:198-312 | `readExpression` agrees with the specification |
| Parser.L20nParser.IdentifierList | parse-l20n.js:322-337 | an index or parameter list agrees with the specification |
| Parser.L20nParser.ReadIdentifier | parse-l20n.js:315-342 | `readIdentifier` agrees with the specification |
| Parser.L20nParser.NextEntity | parse-l20n.js:348-352 | the comment-skipping `while` loop and the `<` agree with the specification |
| Parser.L20nParser.ReadAttributes | parse-l20n.js:355-366 | the `while (id)` loop with its `empty` flag agrees with the specification |
| Parser.L20nParser.EntityBody | parse-l20n.js:376-395 | the value, attributes or macro of an entity agree with the specification |
| Parser.L20nParser.Parse | parse-l20n.js:370-402 | the main loop, deleting the former entry before reading the body and assigning after it, computes the specification's dictionary |
| Parser.ParseL20n | parse-l20n.js:23-411 | `parseL20n(text)` returns exactly what the specification of the whole text returns |

## Left out

- The error message is not modelled: neither the `'l10n parsing error'` text nor the 128-character windows of `parsedText` and `text`. Every failed `check` is the single outcome `SyntaxError`.
- `getSplitString` is not modelled. It is unreachable, because `readValue` calls `getString` and the call to the split variant is commented out.
- `jsonParser` is an empty function that nothing calls, so it is not modelled.
- An unclosed `{{` is not modelled as divergence. With no `}}` anywhere after a `{{` inside a string, `indexOf` returns -1, `i` restarts at 0 and `parseL20n` loops for ever. The model returns the distinct failure `NeverTerminates` instead (`Values.ScanLoop`, `Parser.ScanString`, `PlaceholderLaws.UnclosedPlaceholder`).
- Regular expressions are hand-written prefix matchers. `\s` is the six ASCII whitespace characters and `\w` is `[A-Za-z0-9_]`; the wider Unicode classes of JavaScript are not modelled.
- `parseInt` is modelled as the unbounded value of the leading digits. Its floating-point precision loss on long digit runs is not modelled.
- JavaScript objects are ordered lists of key/value pairs. Inherited properties are not modelled: `key in lolData` for a name such as `toString`, and the special `__proto__` key, behave here as for any other key.
- Object keys are strings. `list[null]` is modelled as the key `"null"`, JavaScript's property-key conversion.
- The selector code that `getAttr` and `getProp` duplicate is one method, `Selector`, which takes the two punctuation tokens as parameters.
- The three identical `do … while` expression loops of `getCall` and `readIdentifier` are one method, `ExpressionList`.
- The scan loop of `getString` is the module-level method `ScanString` over the text value, not a method of the parser object. The loop only reads `text`, so no behaviour is lost.
- ValueLaws.ReadShow: the round trip is stated for values the compact printer writes unambiguously. String bodies have no quote, backslash or brace, keys are names, no object repeats a key, and there is no array `[null]`, which prints as `[]`.
- The `assert` on `match.index == 0 || match[0] == '*/'` in `next` is not a separate outcome. `Tokens.Exec` proves that every anchored pattern matches at index 0, so that assertion never fails.
