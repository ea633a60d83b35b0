/** The text before and after the match as mod.ts:52 and mod.ts:58 compute
    it: from the position `value.search(matches[0])` returns. `search` reads
    the match text as a pattern, so that position can be -1, an earlier or a
    later occurrence. The specification in module Template uses the match
    offset instead. */
module Findings {
  import opened Wrappers
  import opened Template
  import opened Properties

  function Clamp(x: int, len: nat): (r: nat)
    ensures r <= len
  {
    if x < 0 then 0 else if x > len then len else x
  }

  /** JavaScript's `s.substring(start, end)`: both ends clamped to the
      string, and swapped when `start` is past `end`. */
  function Substring(s: string, start: int, end: int): (r: string)
    ensures |r| <= |s|
    ensures 0 <= start <= end <= |s| ==> r == s[start..end]
    ensures 0 <= end <= start <= |s| ==> r == s[end..start]
  {
    var a, b := Clamp(start, |s|), Clamp(end, |s|);
    if a <= b then s[a..b] else s[b..a]
  }

  /** `` $` `` as written: `value.substring(0, found)` for `found == value.search(matches[0])`. */
  function SearchPreMatch(value: string, found: int): (r: string)
    ensures 0 <= found <= |value| ==> r == value[..found]
    ensures found < 0 ==> r == []
  {
    Substring(value, 0, found)
  }

  /** `$'` as written: `value.substring(found + matches[0].length)`. */
  function SearchPostMatch(value: string, whole: string, found: int): (r: string)
    ensures 0 <= found + |whole| <= |value| ==> r == value[found + |whole|..]
    ensures found + |whole| < 0 ==> r == value
  {
    Substring(value, found + |whole|, |value|)
  }

  /** A token resolved as written: `` $` `` and `$'` cut the source at `found`,
      every other token as in the specification. */
  function SearchResolve(value: string, m: Match, found: int, tok: Token): string
    requires Located(value, m)
  {
    if tok.PreMatch? then SearchPreMatch(value, found)
    else if tok.PostMatch? then SearchPostMatch(value, m.whole, found)
    else Resolve(value, m, tok)
  }

  /** The expansion of the remaining template as written, for the position
      `found` that `value.search(matches[0])` returned. */
  function SearchExpandRest(value: string, m: Match, found: int, rest: string): string
    requires Located(value, m)
    decreases |rest|
  {
    if rest == [] then []
    else
      var tok := Classify(m, rest);
      SearchResolve(value, m, found, tok) + SearchExpandRest(value, m, found, rest[|Text(tok)|..])
  }

  /** At the match offset, JavaScript's `substring` gives the text before and after the match. */
  lemma SearchAtMatchSlices(value: string, m: Match)
    requires Located(value, m)
    ensures SearchPreMatch(value, m.offset) == value[..m.offset]
    ensures SearchPostMatch(value, m.whole, m.offset) == value[m.offset + |m.whole|..]
  {
  }

  /** When `search` lands on the match itself, the code as written expands
      every template as the specification does. */
  lemma {:induction false} SearchAtMatchAgrees(value: string, m: Match, rest: string)
    requires Located(value, m)
    ensures SearchExpandRest(value, m, m.offset, rest) == ExpandRest(value, m, rest)
    decreases |rest|
  {
    if rest != [] {
      var tok := Classify(m, rest);
      SearchAtMatchSlices(value, m);
      assert SearchResolve(value, m, m.offset, tok) == Resolve(value, m, tok);
      SearchAtMatchAgrees(value, m, rest[|Text(tok)|..]);
      ExpandStep(value, m, rest, tok);
    }
  }

  /** A two-character token, as written: it resolves on its own and the scan
      resumes right after it. */
  lemma SearchTwoChar(value: string, m: Match, found: int, c: char, tok: Token, s: string)
    requires Located(value, m) && Text(tok) == ['$', c]
    requires Classify(m, ['$', c] + s) == tok
    ensures SearchExpandRest(value, m, found, ['$', c] + s) == SearchResolve(value, m, found, tok) + SearchExpandRest(value, m, found, s)
  {
    PairSplit('$', c, s);
  }

  /** `` $` `` as written gives the text `substring` cuts before `found`. */
  lemma SearchPreToken(value: string, m: Match, found: int, s: string)
    requires Located(value, m)
    ensures SearchExpandRest(value, m, found, ['$', '`'] + s) == SearchPreMatch(value, found) + SearchExpandRest(value, m, found, s)
  {
    PairSplit('$', '`', s);
    SearchTwoChar(value, m, found, '`', PreMatch, s);
  }

  /** `$&` as written gives the whole match. */
  lemma SearchWholeToken(value: string, m: Match, found: int, s: string)
    requires Located(value, m)
    ensures SearchExpandRest(value, m, found, ['$', '&'] + s) == m.whole + SearchExpandRest(value, m, found, s)
  {
    PairSplit('$', '&', s);
    SearchTwoChar(value, m, found, '&', WholeMatch, s);
  }

  /** `$'` as written gives the text `substring` cuts after `found` plus the match length. */
  lemma SearchPostToken(value: string, m: Match, found: int, s: string)
    requires Located(value, m)
    ensures SearchExpandRest(value, m, found, ['$', '\''] + s) == SearchPostMatch(value, m.whole, found) + SearchExpandRest(value, m, found, s)
  {
    PairSplit('$', '\'', s);
    SearchTwoChar(value, m, found, '\'', PostMatch, s);
  }

  lemma PreWholePostSpelling(s: string)
    ensures "$`$&$'" + s == ['$', '`'] + (['$', '&'] + (['$', '\''] + s))
  {
    assert "$`$&$'" == ['$', '`', '$', '&', '$', '\''];
  }

  /** `` $`$&$' `` as written gives the text `substring` cuts before `found`,
      the match, and the text it cuts after `found` plus the match length. */
  lemma SearchPreWholePost(value: string, m: Match, found: int, s: string)
    requires Located(value, m)
    ensures SearchExpandRest(value, m, found, "$`$&$'" + s)
         == SearchPreMatch(value, found) + m.whole + SearchPostMatch(value, m.whole, found) + SearchExpandRest(value, m, found, s)
  {
    var afterWhole := ['$', '\''] + s;
    var afterPre := ['$', '&'] + afterWhole;
    PreWholePostSpelling(s);
    SearchPreToken(value, m, found, afterPre);
    SearchWholeToken(value, m, found, afterWhole);
    SearchPostToken(value, m, found, s);
    ConcatAssoc(SearchPreMatch(value, found), m.whole, SearchPostMatch(value, m.whole, found), SearchExpandRest(value, m, found, s));
  }

  /** `/a\+b/` matching "a+b" at 0, with no groups. */
  const PlusMatch: Match := Match("a+b", 0, [], None)

  /** `substring` around `found`, and the source put back together, for a
      concrete source text. */
  lemma Reassembled(value: string, found: int, pre: string, post: string, joined: string)
    requires Located(value, PlusMatch)
    requires SearchPreMatch(value, found) == pre && SearchPostMatch(value, "a+b", found) == post
    requires pre + "a+b" + post == joined
    ensures SearchExpandRest(value, PlusMatch, found, "$`$&$'") == joined
    ensures Expand(value, Some(PlusMatch), "$`$&$'") == Some(value)
  {
    SearchPreWholePost(value, PlusMatch, found, []);
    PreWholePost(value, PlusMatch, []);
    assert "$`$&$'" + [] == "$`$&$'";
    assert joined + [] == joined && value + [] == value;
  }

  /** value "a+b", regex `/a\+b/`: `search("a+b")` looks for the pattern
      `/a+b/`, which does not occur, and returns -1. As written, `` $`$&$' ``
      then gives "a+bb"; the specification gives the source text back. */
  lemma SearchMissBreaksSplit()
    ensures Located("a+b", PlusMatch)
    ensures SearchExpandRest("a+b", PlusMatch, -1, "$`$&$'") == "a+bb"
    ensures Expand("a+b", Some(PlusMatch), "$`$&$'") == Some("a+b")
  {
    assert "a+b" + "a+b"[2..3] == "a+bb";
    assert "a+b"[0..3] == "a+b";
    assert SearchPreMatch("a+b", -1) == [];
    assert SearchPostMatch("a+b", "a+b", -1) == "a+b"[2..3];
    Reassembled("a+b", -1, [], "a+b"[2..3], "a+bb");
  }

  /** value "a+b aab", regex `/a\+b/`: the match is "a+b" at 0, but `/a+b/`
      first matches "aab" at 4. As written, `` $`$&$' `` then gives
      "a+b a+b"; the specification gives the source text back. */
  lemma SearchLaterBreaksSplit()
    ensures Located("a+b aab", PlusMatch)
    ensures SearchExpandRest("a+b aab", PlusMatch, 4, "$`$&$'") == "a+b a+b"
    ensures Expand("a+b aab", Some(PlusMatch), "$`$&$'") == Some("a+b aab")
  {
    var value := "a+b aab";
    assert value[0..4] + "a+b" + value[7..7] == "a+b a+b";
    assert value[0..3] == "a+b";
    assert SearchPreMatch(value, 4) == value[0..4];
    assert SearchPostMatch(value, "a+b", 4) == value[7..7];
    Reassembled(value, 4, value[0..4], value[7..7], "a+b a+b");
  }
}
