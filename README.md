# regex-expand in Dafny

`expand(value, regex, template)` (mod.ts) matches `regex` against `value` and
fills the replacement `template` from the match. Literal characters are
copied. `$`-tokens are resolved against the match:

- `$$` gives `$`;
- `$&` gives the whole match;
- `` $` `` and `$'` give the text before and after the match;
- `$1` to `$9` give positional groups;
- `$<name>` gives a named group.

A failed match gives `null`.

The project has these modules:

- `Template` (template.dfy) is the specification. It holds:
  - the match result, as a datatype the regex engine would hand over: whole match, offset, positional groups, named groups in declaration order;
  - the tokens of the replacement grammar;
  - `Classify`, which reads the token at the start of the remaining template;
  - `ExpandRest`, a recursive expansion that handles one token at a time.
- `Expander` (expander.dfy) is the scan as mod.ts writes it. It is a `while` loop over an index with an output accumulator, and an inner loop over the named-group keys. It is proved to return exactly `Template.Expand`.
- `Properties` (properties.dfy) proves of the specification what mod.ts promises:
  - the meaning of each token;
  - the fallbacks;
  - that the text before the match, the match and the text after it put back together are the source;
  - that the order of the named-group keys does not matter.
- `Examples` (examples.dfy) proves the cases of mod_test.ts, including the kitchen-sink case, against the specification.
- `Findings` (findings.dfy) models the pre-match and post-match code as written, with `value.search`. See "## Findings".
- `Wrappers` (wrappers.dfy) holds `Option`.

Decisions the source leaves open:

- An unset named group appends JavaScript's `undefined` (mod.ts:85). The model appends the literal text `"undefined"` (`Template.Undefined`).
- `Number.parseInt(nextChar)` is truthy only for `'1'` to `'9'` (mod.ts:64). `$$`, `$&`, `` $` `` and `$'` are handled before that test (mod.ts:39-60), and `$<` after it (mod.ts:75). So `$` followed by `0`, or by any character other than `$`, `&`, `` ` ``, `'`, `<` and `1`-`9`, reaches the last `else` (mod.ts:98-101). That branch copies only the `$`.
- A positional group that is missing, unset or empty is falsy (mod.ts:66). It leaves the two characters `$N`.
- The key scan (mod.ts:80-89) takes the first key, in declaration order, whose `$<key>` starts the remaining template. The model follows this code rather than a "longest matching key" rule. The two rules agree, as `Properties.KeyTokenUnique` and `Properties.KeyOrderIrrelevant` show: JavaScript group names are distinct and contain no `>`, so at most one token can match at any position.
- The pre-match and post-match use the match offset. The source uses `value.search(matches[0])` (see "## Findings").

## Model

| member | source | states |
|---|---|---|
| Template.FirstKey | mod.ts:80-89 | the key scan returns the first group, in declaration order, whose token `$<key>` starts the remaining template; no earlier group's token does; it returns none exactly when no group's token does |
| Template.Classify | mod.ts:23-101 | the token read at the current position consumes at least one character and is a prefix of what remains, so every pass moves the index forward and never past the end |
| Template.Resolve | mod.ts:39-101 | what the token read at `idx` appends to `res`: `$`, the whole match, the text before or after it, group N or the two characters `$N`, a named capture or "undefined", `$<`, or the character itself; its meaning per token is proved by the `Properties` lemmas below |
| Template.ExpandRest | mod.ts:23-102 | the scan loop as a recursion over the remaining template: the resolution of the token read there, followed by the expansion of what comes after that token; `Expander.ExpandTemplate` is proved to compute it |
| Template.Tokenize | mod.ts:23-102 | the tokens the scan reads, concatenated, are exactly the template |
| Template.ExpandResolvesTokens | mod.ts:23-102 | the expansion is what each token the scan reads resolves to, in the order read, concatenated |
| Template.Expand | mod.ts:17-18 | the result is null exactly when the regex did not match |
| Expander.ScanToken | mod.ts:24-101 | one pass of the loop body appends what the token at `idx` stands for, and moves `idx` to the end of that token, including the early exit from the key loop |
| Expander.Advance | mod.ts:23-102 | appending one token's expansion and moving past it keeps "output so far + expansion of the rest" unchanged, and the new index stays within the template |
| Expander.ExpandTemplate | mod.ts:12-105 | the loop returns null for no match, and otherwise exactly the expansion of the whole template |
| Properties.LiteralPrefix | mod.ts:32-36 | text without `$` is copied verbatim, whatever follows it |
| Properties.NoSigilUnchanged | mod.ts:27-36 | a template with no `$` comes back unchanged |
| Properties.TrailingSigil | mod.ts:26-30 | a `$` that is the last character of the template is emitted as is |
| Properties.DoubleSigil | mod.ts:39-42 | `$$` gives one `$` and the scan resumes two characters on, so the next character never completes a token with it |
| Properties.WholeMatchToken | mod.ts:45-48 | `$&` gives the whole match and consumes two characters |
| Properties.PreMatchToken | mod.ts:51-54 | `` $` `` gives the source text before the match |
| Properties.PostMatchToken | mod.ts:57-60 | `$'` gives the source text after the match |
| Properties.MatchSplitsSource | mod.ts:52-58 | the text before the match, the match and the text after it make up the source text |
| Properties.PreWholePost | mod.ts:45-60 | the template `` $`$&$' `` expands to the source text itself |
| Properties.PositionalSet | mod.ts:64-67 | `$N`, for a digit 1-9 whose group matched non-empty text, gives that text and consumes two characters |
| Properties.PositionalFallback | mod.ts:64-72 | `$N` for a missing, unset or empty group is kept as the two characters `$N`, and the scan still moves by two |
| Properties.SigilThenOther | mod.ts:97-101 | `$` followed by any character that starts no token (not `$`, `&`, `` ` ``, `'`, `<` or 1-9) gives only the `$`, and the scan resumes at that character |
| Properties.ZeroIsLiteral | mod.ts:97-101 | `$0` is no token: the `$` and then the `0` are copied |
| Properties.AngleInLonger | mod.ts:83-84 | if the tokens of a shorter and a longer name both start the template, the longer name has `>` where the shorter token closes |
| Properties.KeyTokenUnique | mod.ts:83-84 | two names without `>` whose tokens both start the same text are the same name |
| Properties.FirstKeyFindsMember | mod.ts:80-89 | the key scan finds a group whenever a declared group's token starts the template |
| Properties.NamedGroupToken | mod.ts:80-88 | `$<key>` for a declared group gives its capture, or `undefined` when the group is unset, and the scan resumes right after the `>` |
| Properties.NamedGroupMiss | mod.ts:75-94 | `$<` not followed by a declared group's token, or with no named groups, is kept as `$<`, and the scan resumes two characters on |
| Properties.ClassifyKeyOrder | mod.ts:80-89 | with distinct names free of `>`, the token read at a position is the same whatever order the named groups are listed in |
| Properties.KeyOrderIrrelevant | mod.ts:80-89 | with distinct names free of `>`, the whole expansion is the same whatever order the named groups are listed in |
| Examples.InsertPositional | mod_test.ts:4-9 | `$1` on "hello123world" with `/(\d+)/` gives "123" |
| Examples.InsertNamed | mod_test.ts:11-16 | `$<num>` with `/(?<num>\d+)/` gives "123" |
| Examples.InsertMatched | mod_test.ts:18-23 | `$&` with `/\d+/` gives "123" |
| Examples.InsertPreceding | mod_test.ts:25-30 | `` $` `` with `/\d+/` gives "hello" |
| Examples.InsertFollowing | mod_test.ts:32-37 | `$'` with `/\d+/` gives "world" |
| Examples.EscapedSigilTail | mod_test.ts:40-41 | "$$1 $$$1 $$<num>" gives "$1 $123 $<num>" |
| Examples.IgnoreDoubleSigil | mod_test.ts:39-44 | "1 $1 $$1 $$$1 $$<num>" gives "1 123 $1 $123 $<num>" |
| Examples.IgnoreUnmatchedPositional | mod_test.ts:46-51 | `$2` with no group 2 stays "$2" |
| Examples.IgnoreUnmatchedNamed | mod_test.ts:53-58 | `$<no>` with only the group `yes` stays "$<no>" |
| Examples.NullIfNoMatch | mod_test.ts:60-65 | no match gives null |
| Examples.EscapedThenToken | mod.ts:38-42 | `$$`, then text without `$`, then a token: the `$$` gives `$`, the text is kept and the token is still read as a token |
| Examples.SinkWholeLine | mod_test.ts:71 | "$$& = $&" gives "$& = " followed by the whole match (mod_test.ts:82) |
| Examples.SinkPreLine | mod_test.ts:72 | `` $$`= $` `` gives `` $`= --- `` (mod_test.ts:83) |
| Examples.SinkPostLine | mod_test.ts:73 | `$$'= $'` gives `$'= ---` (mod_test.ts:84) |
| Examples.SinkGroupLine | mod_test.ts:74-78 | "$$N = $N", for a group N with non-empty text, gives "$N = " followed by that text (mod_test.ts:85-89) |
| Examples.SinkNamedLine | mod_test.ts:79-80 | "$$<key> = $<key>", for a declared group with a capture, gives "$<key> = " followed by the capture (mod_test.ts:90-91) |
| Examples.SinkMatchLines | mod_test.ts:71-73 | lines 1-3 of the kitchen-sink template expand to lines 1-3 of the expected text (mod_test.ts:82-84) |
| Examples.SinkPositionalLines | mod_test.ts:74-78 | lines 4-8 expand to the expected lines (mod_test.ts:85-89) |
| Examples.SinkNamedLines | mod_test.ts:79-80 | lines 9-10 expand to the expected lines (mod_test.ts:90-91) |
| Examples.SinkEachLine | mod_test.ts:71-91 | each line of the kitchen-sink template expands to its expected line, whatever follows it |
| Examples.KitchenSink | mod_test.ts:67-94 | the ten-line kitchen-sink template expands to the ten expected lines |
| Findings.Substring | mod.ts:52-58 | JavaScript `substring`: both ends clamped to the string and swapped when start is past end; inside the string it is the slice between the two ends, and it is never longer than the string |
| Findings.SearchPreMatch | mod.ts:52 | `value.substring(0, found)`: the text before `found` when `found` lies in the source, and empty when `found` is -1 |
| Findings.SearchPostMatch | mod.ts:58 | `value.substring(found + matches[0].length)`: the text from `found` plus the match length on when that lies in the source, and the whole source when it is negative |
| Findings.SearchResolve | mod.ts:39-101 | a token resolved as written: `` $` `` and `$'` cut the source around the search position `found`, every other token as `Template.Resolve` |
| Findings.SearchExpandRest | mod.ts:23-102 | the scan loop as written, for the search position `found`; `SearchAtMatchAgrees` proves it equal to `Template.ExpandRest` when `found` is the match offset |
| Findings.SearchAtMatchSlices | mod.ts:50-60 | when `value.search` lands on the match, `substring` gives the text before and after the match |
| Findings.SearchAtMatchAgrees | mod.ts:23-102 | when `value.search` lands on the match, the code as written expands every template as the specification does |
| Findings.SearchPreToken | mod.ts:51-54 | as written, `` $` `` gives `value.substring(0, found)` and consumes two characters |
| Findings.SearchWholeToken | mod.ts:45-48 | as written, `$&` gives the whole match and consumes two characters |
| Findings.SearchPostToken | mod.ts:57-60 | as written, `$'` gives `value.substring(found + matches[0].length)` and consumes two characters |
| Findings.SearchPreWholePost | mod.ts:45-60 | as written, `` $`$&$' `` gives the text `substring` cuts before the search position, the match, and the text after the search position plus the match length |
| Findings.SearchMissBreaksSplit | mod.ts:50-60 | for "a+b" and `/a\+b/`, search gives -1 and `` $`$&$' `` as written gives "a+bb"; the specification gives "a+b" |
| Findings.SearchLaterBreaksSplit | mod.ts:50-60 | for "a+b aab" and `/a\+b/`, search gives 4 and `` $`$&$' `` as written gives "a+b a+b"; the specification gives "a+b aab" |

## Left out

- `regex.exec` (mod.ts:17) is the regex engine. The model takes its result as the input `Match`, or `None` for a failed match. The `lastIndex` state of a global regex is not modelled.
- `value.search(matches[0])` (mod.ts:52, 58) is replaced by the match offset. `Located(value, m)` ties the offset to the match text. The source diverges when the match text, read as a pattern, matches nowhere (-1), earlier or later in the source (see "## Findings"). `Findings.SearchExpandRest` models the code as written for a given search position; the search itself is not modelled.
- `value.search(matches[0])` throws a `SyntaxError` when the match text is not a valid pattern: `` expand("a(b", /\(/, "$`") `` searches for `(`, and match texts such as `*`, `[` or `?` do the same. The model has no exceptions, so this case is not modelled; the specification gives the text before the match.
- JavaScript strings are sequences of UTF-16 code units; the model uses `seq<char>`. Surrogate pairs are not modelled.
- `for...in` over `matches.groups` is modelled as the list of named groups in declaration order. `Number.parseInt` is modelled only for one character, as the test `'1' <= c <= '9'`.
- Expander.ScanToken: the labelled `continue outerloop` (mod.ts:87) becomes a `return` from the method that holds one pass of the loop body. The outer loop then begins its next pass, as `continue` would.
- Properties.NamedGroupToken: requires distinct group names without `>`. JavaScript enforces both for named groups, and the code relies on them when it takes the first key whose token matches.
- Examples: each test case's regex is replaced by the match result it produces; the match itself is not derived.

## Findings

| source | as written | input that shows it | evidently intended | confidence | as-written member | corrected member |
|---|---|---|---|---|---|---|
| mod.ts:52 | `value.search(matches[0])` finds the match by reading its text as a regex; it returns -1 when that regex matches nowhere, the position of an earlier or a later match of that regex, and it throws when the text is not a valid regex | value "a+b", regex `/a\+b/`, template ``$`$&$'``: `search` looks for `/a+b/`, gets -1, and the result is "a+bb" | the text before and after the match itself (`matches.index`), so that ``$`$&$'`` gives the source text back | not executed | Findings.SearchMissBreaksSplit | Properties.PreWholePost |
| mod.ts:52-58 | `value.substring(0, found)` and `value.substring(found + matches[0].length)`, for `found` from `value.search(matches[0])`, cut around a later match of the match text read as a regex | value "a+b aab", regex `/a\+b/`, template ``$`$&$'``: `search` finds `/a+b/` at 4, and the result is "a+b a+b" | the text before and after the match itself, so that ``$`$&$'`` gives the source text back | not executed | Findings.SearchLaterBreaksSplit | Properties.PreWholePost |
