/** What mod.ts promises about `expand`, proved of the specification in
    module Template (and so, through Expander.ExpandTemplate, of the scan). */
module Properties {
  import opened Wrappers
  import opened Template

  /** No group name contains `>` (true of every JavaScript group name). */
  predicate NoAngle(groups: seq<(string, Option<string>)>) {
    forall i :: 0 <= i < |groups| ==> '>' !in groups[i].0
  }

  /** No two named groups share a name (true of the keys of `matches.groups`). */
  predicate KeysDistinct(groups: seq<(string, Option<string>)>) {
    forall i, j :: 0 <= i < j < |groups| ==> groups[i].0 != groups[j].0
  }

  /** Text without `$` is copied verbatim, whatever follows it. */
  lemma {:induction false} LiteralPrefix(value: string, m: Match, p: string, s: string)
    requires Located(value, m) && '$' !in p
    ensures ExpandRest(value, m, p + s) == p + ExpandRest(value, m, s)
    decreases |p|
  {
    if p == [] {
      assert p + s == s;
    } else {
      var c, tail, rest := p[0], p[1..], p + s;
      var e := ExpandRest(value, m, s);
      ConsSplit(p, s);
      ExpandStep(value, m, rest, Literal(c));
      LiteralPrefix(value, m, tail, s);
      ConsSplit(p, e);
    }
  }

  lemma ConsSplit(p: string, s: string)
    requires p != []
    ensures p + s != [] && (p + s)[0] == p[0] && (p + s)[1..] == p[1..] + s
    ensures p + s == [p[0]] + (p[1..] + s)
  {
  }

  lemma PairSplit(a: char, b: char, s: string)
    ensures |[a, b] + s| >= 2 && ([a, b] + s)[0] == a && ([a, b] + s)[1] == b && ([a, b] + s)[2..] == s
  {
  }

  /** A two-character token `$c` expands on its own, and the scan resumes right after it. */
  lemma TwoCharToken(value: string, m: Match, c: char, tok: Token, s: string)
    requires Located(value, m) && Text(tok) == ['$', c]
    requires Classify(m, ['$', c] + s) == tok
    ensures ExpandRest(value, m, ['$', c] + s) == Resolve(value, m, tok) + ExpandRest(value, m, s)
  {
    var rest := ['$', c] + s;
    PairSplit('$', c, s);
    ExpandStep(value, m, rest, tok);
  }

  /** A template without `$` comes back unchanged. */
  lemma NoSigilUnchanged(value: string, m: Match, template: string)
    requires Located(value, m) && '$' !in template
    ensures Expand(value, Some(m), template) == Some(template)
  {
    LiteralPrefix(value, m, template, []);
    assert template + [] == template;
  }

  /** A `$` that ends the template is copied as is. */
  lemma TrailingSigil(value: string, m: Match, p: string)
    requires Located(value, m) && '$' !in p
    ensures ExpandRest(value, m, p + "$") == p + "$"
  {
    LiteralPrefix(value, m, p, "$");
    assert Classify(m, "$") == Literal('$');
    assert "$"[1..] == [];
  }

  /** `$$` gives one `$`, and the scan resumes after both characters, so the
      character after them never completes a token. */
  lemma DoubleSigil(value: string, m: Match, s: string)
    requires Located(value, m)
    ensures ExpandRest(value, m, "$$" + s) == "$" + ExpandRest(value, m, s)
  {
    PairSplit('$', '$', s);
    assert "$$" == ['$', '$'];
    TwoCharToken(value, m, '$', Dollar, s);
  }

  /** `$&` gives the whole match. */
  lemma WholeMatchToken(value: string, m: Match, s: string)
    requires Located(value, m)
    ensures ExpandRest(value, m, "$&" + s) == m.whole + ExpandRest(value, m, s)
  {
    PairSplit('$', '&', s);
    assert "$&" == ['$', '&'];
    TwoCharToken(value, m, '&', WholeMatch, s);
  }

  /** `` $` `` gives the text before the match. */
  lemma PreMatchToken(value: string, m: Match, s: string)
    requires Located(value, m)
    ensures ExpandRest(value, m, "$`" + s) == value[..m.offset] + ExpandRest(value, m, s)
  {
    PairSplit('$', '`', s);
    assert "$`" == ['$', '`'];
    TwoCharToken(value, m, '`', PreMatch, s);
  }

  /** `$'` gives the text after the match. */
  lemma PostMatchToken(value: string, m: Match, s: string)
    requires Located(value, m)
    ensures ExpandRest(value, m, "$'" + s) == value[m.offset + |m.whole|..] + ExpandRest(value, m, s)
  {
    PairSplit('$', '\'', s);
    assert "$'" == ['$', '\''];
    TwoCharToken(value, m, '\'', PostMatch, s);
  }

  lemma ConcatAssoc(a: string, b: string, c: string, d: string)
    ensures a + (b + (c + d)) == (a + b + c) + d
  {
  }

  /** The match splits the source text into the text before it, the match and the text after it. */
  lemma MatchSplitsSource(value: string, m: Match)
    requires Located(value, m)
    ensures value == value[..m.offset] + m.whole + value[m.offset + |m.whole|..]
  {
    assert value == value[..m.offset] + value[m.offset..];
    assert value[m.offset..] == m.whole + value[m.offset + |m.whole|..];
  }

  /** Pre-match, whole match and post-match put back together are the source text. */
  lemma PreWholePost(value: string, m: Match, s: string)
    requires Located(value, m)
    ensures ExpandRest(value, m, "$`$&$'" + s) == value + ExpandRest(value, m, s)
  {
    var afterWhole := "$'" + s;
    var afterPre := "$&" + afterWhole;
    assert "$`$&$'" + s == "$`" + afterPre;
    PreMatchToken(value, m, afterPre);
    WholeMatchToken(value, m, afterWhole);
    PostMatchToken(value, m, s);
    MatchSplitsSource(value, m);
    ConcatAssoc(value[..m.offset], m.whole, value[m.offset + |m.whole|..], ExpandRest(value, m, s));
  }

  /** `$N` for a digit N in 1..9 whose group matched non-empty text gives that text. */
  lemma PositionalSet(value: string, m: Match, d: char, s: string)
    requires Located(value, m) && IsGroupDigit(d)
    requires Group(m, DigitValue(d)).Some? && Group(m, DigitValue(d)).value != ""
    ensures ExpandRest(value, m, ['$', d] + s) == Group(m, DigitValue(d)).value + ExpandRest(value, m, s)
  {
    PairSplit('$', d, s);
    TwoCharToken(value, m, d, Positional(d), s);
  }

  /** `$N` for a group that does not exist, is unset or matched the empty
      string is kept as the two characters `$N`; the scan still moves by two. */
  lemma PositionalFallback(value: string, m: Match, d: char, s: string)
    requires Located(value, m) && IsGroupDigit(d)
    requires DigitValue(d) > |m.positional| || m.positional[DigitValue(d) - 1] in {None, Some("")}
    ensures ExpandRest(value, m, ['$', d] + s) == ['$', d] + ExpandRest(value, m, s)
  {
    PairSplit('$', d, s);
    TwoCharToken(value, m, d, Positional(d), s);
  }

  /** `$` followed by a character that starts no token (the last `else` of
      the scan) gives only the `$`; the scan resumes at that character. */
  lemma SigilThenOther(value: string, m: Match, c: char, s: string)
    requires Located(value, m) && c !in "$&`'<" && !IsGroupDigit(c)
    ensures ExpandRest(value, m, ['$', c] + s) == "$" + ExpandRest(value, m, [c] + s)
  {
    var rest := ['$', c] + s;
    PairSplit('$', c, s);
    assert Classify(m, rest) == Literal('$');
    ExpandStep(value, m, rest, Literal('$'));
    assert rest[1..] == [c] + s;
  }

  /** `$0` is no token: the `$` and the `0` are both copied. */
  lemma ZeroIsLiteral(value: string, m: Match, s: string)
    requires Located(value, m)
    ensures ExpandRest(value, m, "$0" + s) == "$0" + ExpandRest(value, m, s)
  {
    var e := ExpandRest(value, m, s);
    ZeroSpelling(s, e);
    SigilThenOther(value, m, '0', s);
    LiteralPrefix(value, m, "0", s);
  }

  lemma ZeroSpelling(s: string, e: string)
    ensures "$0" + s == ['$', '0'] + s && "0" + s == ['0'] + s
    ensures "$" + ("0" + e) == "$0" + e
  {
    assert "$0" == ['$', '0'] && "0" == ['0'];
  }

  /** When the tokens of two group names both start the same text, the longer
      name has `>` where the shorter one's token closes. */
  lemma AngleInLonger(k1: string, k2: string, rest: string)
    requires |k1| < |k2|
    requires StartsWith(rest, NamedToken(k1)) && StartsWith(rest, NamedToken(k2))
    ensures k2[|k1|] == '>'
  {
    assert rest[|k1| + 2] == NamedToken(k1)[|k1| + 2];
    assert rest[|k1| + 2] == NamedToken(k2)[|k1| + 2];
  }

  /** Two group names without `>` whose tokens both start the same text are
      the same name. */
  lemma KeyTokenUnique(k1: string, k2: string, rest: string)
    requires '>' !in k1 && '>' !in k2
    requires StartsWith(rest, NamedToken(k1)) && StartsWith(rest, NamedToken(k2))
    ensures k1 == k2
  {
    if |k1| < |k2| {
      AngleInLonger(k1, k2, rest);
      assert false;
    } else if |k2| < |k1| {
      AngleInLonger(k2, k1, rest);
      assert false;
    } else {
      assert k1 == rest[2..|k1| + 2] == k2;
    }
  }

  /** The key scan finds a group whenever some listed group's token starts the text. */
  lemma FirstKeyFindsMember(groups: seq<(string, Option<string>)>, rest: string, p: (string, Option<string>))
    requires p in groups && StartsWith(rest, NamedToken(p.0))
    ensures FirstKey(groups, rest, 0).Some?
  {
    var k :| 0 <= k < |groups| && groups[k] == p;
  }

  /** `$<name>` for a declared group gives its capture (JavaScript's
      "undefined" when the group is unset). */
  lemma NamedGroupToken(value: string, m: Match, key: string, capture: Option<string>, s: string)
    requires Located(value, m) && m.groups.Some?
    requires KeysDistinct(m.groups.value) && NoAngle(m.groups.value)
    requires (key, capture) in m.groups.value
    ensures ExpandRest(value, m, NamedToken(key) + s) == CaptureText(capture) + ExpandRest(value, m, s)
  {
    var groups, rest := m.groups.value, NamedToken(key) + s;
    assert rest[..|NamedToken(key)|] == NamedToken(key);
    match FirstKey(groups, rest, 0)
    case None =>
      FirstKeyFindsMember(groups, rest, (key, capture));
      assert false;
    case Some(i) =>
      KeyTokenUnique(groups[i].0, key, rest);
      assert groups[i] == (key, capture);
      assert rest[0] == '$' && rest[1] == '<';
      assert Classify(m, rest) == Named(key, capture);
      assert rest[|NamedToken(key)|..] == s;
  }

  /** `$<` not followed by the token of a declared group is kept as `$<`, and
      the scan resumes right after it. */
  lemma NamedGroupMiss(value: string, m: Match, s: string)
    requires Located(value, m)
    requires m.groups.Some? ==> forall k :: 0 <= k < |m.groups.value| ==> !StartsWith("$<" + s, NamedToken(m.groups.value[k].0))
    ensures ExpandRest(value, m, "$<" + s) == "$<" + ExpandRest(value, m, s)
  {
    var rest := "$<" + s;
    assert rest[0] == '$' && rest[1] == '<';
    assert m.groups.Some? ==> FirstKey(m.groups.value, rest, 0) == None;
    assert Classify(m, rest) == NamedMiss;
    assert rest[2..] == s;
  }

  /** With distinct names free of `>`, the token classified at a position does
      not depend on the order in which the named groups are listed. */
  lemma ClassifyKeyOrder(m: Match, g1: seq<(string, Option<string>)>, g2: seq<(string, Option<string>)>, rest: string)
    requires rest != [] && KeysDistinct(g1) && NoAngle(g1)
    requires forall p :: p in g1 <==> p in g2
    ensures Classify(m.(groups := Some(g1)), rest) == Classify(m.(groups := Some(g2)), rest)
  {
    var m1, m2 := m.(groups := Some(g1)), m.(groups := Some(g2));
    if |rest| >= 2 && rest[0] == '$' && rest[1] == '<' {
      match FirstKey(g1, rest, 0) {
        case Some(i) =>
          match FirstKey(g2, rest, 0) {
            case None =>
              FirstKeyFindsMember(g2, rest, g1[i]);
              assert false;
            case Some(j') =>
              assert g2[j'] in g1;
              var i' :| 0 <= i' < |g1| && g1[i'] == g2[j'];
              KeyTokenUnique(g1[i].0, g1[i'].0, rest);
              assert i == i';
              assert Classify(m1, rest) == Named(g1[i].0, g1[i].1);
              assert Classify(m2, rest) == Named(g2[j'].0, g2[j'].1);
          }
        case None =>
          match FirstKey(g2, rest, 0) {
            case None =>
              assert Classify(m1, rest) == NamedMiss == Classify(m2, rest);
            case Some(j) =>
              FirstKeyFindsMember(g1, rest, g2[j]);
              assert false;
          }
      }
    }
  }

  /** With distinct names free of `>`, the expansion does not depend on the
      order in which the named groups are listed, so the order of the key
      iteration in mod.ts does not matter. */
  lemma {:induction false} KeyOrderIrrelevant(value: string, m: Match, g1: seq<(string, Option<string>)>,
                                              g2: seq<(string, Option<string>)>, rest: string)
    requires Located(value, m) && KeysDistinct(g1) && NoAngle(g1)
    requires forall p :: p in g1 <==> p in g2
    ensures ExpandRest(value, m.(groups := Some(g1)), rest) == ExpandRest(value, m.(groups := Some(g2)), rest)
    decreases |rest|
  {
    if rest != [] {
      var m1, m2 := m.(groups := Some(g1)), m.(groups := Some(g2));
      ClassifyKeyOrder(m, g1, g2, rest);
      var tok := Classify(m1, rest);
      var later := rest[|Text(tok)|..];
      ExpandStep(value, m1, rest, tok);
      ExpandStep(value, m2, rest, tok);
      KeyOrderIrrelevant(value, m, g1, g2, later);
      ResolveIgnoresGroups(value, m, Some(g1), tok);
      ResolveIgnoresGroups(value, m, Some(g2), tok);
    }
  }

  /** What a token resolves to does not depend on the named groups. */
  lemma ResolveIgnoresGroups(value: string, m: Match, groups: Option<seq<(string, Option<string>)>>, tok: Token)
    requires Located(value, m)
    ensures Located(value, m.(groups := groups))
    ensures Resolve(value, m.(groups := groups), tok) == Resolve(value, m, tok)
  {
  }
}
