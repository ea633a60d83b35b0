/** The specification of `expand` (mod.ts): the match result the regex engine
    hands over, the tokens of the replacement grammar, and a pure recursive
    function that expands the remaining template one token at a time. */
module Template {
  import opened Wrappers

  /** A successful match of the pattern against the source text.
      `positional[n - 1]` is capture group n; `groups` lists the named groups
      in declaration order and is `None` when the pattern declares none. */
  datatype Match = Match(
    whole: string,
    offset: nat,
    positional: seq<Option<string>>,
    groups: Option<seq<(string, Option<string>)>>)

  /** What JavaScript appends for an unset named group (`res += undefined`). */
  const Undefined: string := "undefined"

  /** `whole` occurs in `value` at `offset`. */
  predicate Located(value: string, m: Match) {
    m.offset + |m.whole| <= |value| && value[m.offset..m.offset + |m.whole|] == m.whole
  }

  predicate StartsWith(s: string, prefix: string) {
    |prefix| <= |s| && s[..|prefix|] == prefix
  }

  /** The digits that `Number.parseInt` turns into a truthy number. */
  predicate IsGroupDigit(c: char) {
    '1' <= c <= '9'
  }

  function DigitValue(c: char): int {
    c as int - '0' as int
  }

  /** `matches[n]`: group n, or `None` when the pattern has fewer groups. */
  function Group(m: Match, n: int): Option<string> {
    if 1 <= n <= |m.positional| then m.positional[n - 1] else None
  }

  /** The template text `$<key>` that names a group. */
  function NamedToken(key: string): string {
    "$<" + key + ">"
  }

  function CaptureText(capture: Option<string>): string {
    match capture
    case Some(s) => s
    case None => Undefined
  }

  /** One step of the scanner: the token found at the current position. */
  datatype Token =
    | Literal(c: char)                              // copied as is
    | Dollar                                        // $$
    | WholeMatch                                    // $&
    | PreMatch                                      // $`
    | PostMatch                                     // $'
    | Positional(digit: char)                       // $1 .. $9
    | Named(key: string, capture: Option<string>)   // $<key>, key declared
    | NamedMiss                                     // $< with no declared key

  /** The template characters a token consumes. */
  function Text(tok: Token): string {
    match tok
    case Literal(c) => [c]
    case Dollar => "$$"
    case WholeMatch => "$&"
    case PreMatch => "$`"
    case PostMatch => "$'"
    case Positional(d) => ['$', d]
    case Named(key, _) => NamedToken(key)
    case NamedMiss => "$<"
  }

  /** The index of the first group, from `i` on, whose token `$<key>` starts `rest`. */
  function FirstKey(groups: seq<(string, Option<string>)>, rest: string, i: nat): (r: Option<nat>)
    requires i <= |groups|
    ensures r.Some? ==> i <= r.value < |groups| && StartsWith(rest, NamedToken(groups[r.value].0))
    ensures r.Some? ==> forall j :: i <= j < r.value ==> !StartsWith(rest, NamedToken(groups[j].0))
    ensures r.None? ==> forall j :: i <= j < |groups| ==> !StartsWith(rest, NamedToken(groups[j].0))
    decreases |groups| - i
  {
    if i == |groups| then None
    else if StartsWith(rest, NamedToken(groups[i].0)) then Some(i)
    else FirstKey(groups, rest, i + 1)
  }

  /** Classifies the start of a non-empty remaining template. The token always
      consumes at least one character and is a prefix of what remains, so the
      scan makes progress and never runs past the end of the template. */
  function Classify(m: Match, rest: string): (tok: Token)
    requires rest != []
    ensures 1 <= |Text(tok)| && StartsWith(rest, Text(tok))
  {
    if |rest| == 1 || rest[0] != '$' then Literal(rest[0])
    else if rest[1] == '$' then Dollar
    else if rest[1] == '&' then WholeMatch
    else if rest[1] == '`' then PreMatch
    else if rest[1] == '\'' then PostMatch
    else if IsGroupDigit(rest[1]) then Positional(rest[1])
    else if rest[1] == '<' then
      if m.groups.None? then NamedMiss
      else
        match FirstKey(m.groups.value, rest, 0)
        case Some(i) => Named(m.groups.value[i].0, m.groups.value[i].1)
        case None => NamedMiss
    else Literal('$')
  }

  /** The text a token expands to. */
  function Resolve(value: string, m: Match, tok: Token): string
    requires Located(value, m)
  {
    match tok
    case Literal(c) => [c]
    case Dollar => "$"
    case WholeMatch => m.whole
    case PreMatch => value[..m.offset]
    case PostMatch => value[m.offset + |m.whole|..]
    case Positional(d) =>
      var g := Group(m, DigitValue(d));
      if g.Some? && g.value != "" then g.value else ['$', d]
    case Named(_, capture) => CaptureText(capture)
    case NamedMiss => "$<"
  }

  /** The expansion of the remaining template `rest`. */
  function ExpandRest(value: string, m: Match, rest: string): string
    requires Located(value, m)
    decreases |rest|
  {
    if rest == [] then []
    else
      var tok := Classify(m, rest);
      Resolve(value, m, tok) + ExpandRest(value, m, rest[|Text(tok)|..])
  }

  /** One step of the expansion, for a token already classified. */
  lemma ExpandStep(value: string, m: Match, rest: string, tok: Token)
    requires Located(value, m) && rest != [] && Classify(m, rest) == tok
    ensures ExpandRest(value, m, rest) == Resolve(value, m, tok) + ExpandRest(value, m, rest[|Text(tok)|..])
  {
  }

  /** `expand`: no match gives no result, otherwise the whole template is expanded. */
  function Expand(value: string, m: Option<Match>, template: string): (r: Option<string>)
    requires m.Some? ==> Located(value, m.value)
    ensures r.None? <==> m.None?
  {
    match m
    case None => None
    case Some(mt) => Some(ExpandRest(value, mt, template))
  }

  /** The concatenated template text of a token sequence. */
  function Concat(ts: seq<Token>): string {
    if ts == [] then [] else Text(ts[0]) + Concat(ts[1..])
  }

  /** The tokens the scanner reads from `rest`; together they are exactly `rest`. */
  function Tokenize(m: Match, rest: string): (ts: seq<Token>)
    ensures Concat(ts) == rest
    decreases |rest|
  {
    if rest == [] then []
    else
      var tok := Classify(m, rest);
      var ts := [tok] + Tokenize(m, rest[|Text(tok)|..]);
      assert ts[1..] == Tokenize(m, rest[|Text(tok)|..]);
      ts
  }

  /** The texts a token sequence resolves to, concatenated. */
  function ResolveAll(value: string, m: Match, ts: seq<Token>): string
    requires Located(value, m)
  {
    if ts == [] then [] else Resolve(value, m, ts[0]) + ResolveAll(value, m, ts[1..])
  }

  /** The expansion resolves each token the scanner reads, in order, and
      concatenates the results. */
  lemma {:induction false} ExpandResolvesTokens(value: string, m: Match, rest: string)
    requires Located(value, m)
    ensures ExpandRest(value, m, rest) == ResolveAll(value, m, Tokenize(m, rest))
    decreases |rest|
  {
    if rest != [] {
      var tok := Classify(m, rest);
      var later := rest[|Text(tok)|..];
      var ts := Tokenize(m, rest);
      assert ts == [tok] + Tokenize(m, later);
      assert ts[0] == tok && ts[1..] == Tokenize(m, later);
      ExpandResolvesTokens(value, m, later);
    }
  }
}
