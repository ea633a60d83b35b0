/** The cases of mod_test.ts, stated as facts about the specification. Each
    source text is written as the text before the match, the match and the
    text after it, which is what the regex engine would report. */
module Examples {
  import opened Wrappers
  import opened Template
  import opened Properties

  const Hello: string := "hello" + "123" + "world"

  /** What `/(\d+)/` reports on "hello123world". */
  const DigitsGroup: Match := Match("123", 5, [Some("123")], None)

  /** What `/\d+/` reports on "hello123world". */
  const DigitsOnly: Match := Match("123", 5, [], None)

  /** What `/(?<num>\d+)/` reports on "hello123world". */
  const DigitsNamed: Match := Match("123", 5, [Some("123")], Some([("num", Some("123"))]))

  /** What `/(?<yes>\d+)/` reports on "hello123world". */
  const DigitsYes: Match := Match("123", 5, [Some("123")], Some([("yes", Some("123"))]))

  lemma HelloLocated(m: Match)
    requires m.whole == "123" && m.offset == 5
    ensures Located(Hello, m)
    ensures Hello[..m.offset] == "hello" && Hello[m.offset + |m.whole|..] == "world"
  {
  }

  /** mod_test.ts:4-9 */
  lemma InsertPositional()
    ensures Located(Hello, DigitsGroup) && Expand(Hello, Some(DigitsGroup), "$1") == Some("123")
  {
    HelloLocated(DigitsGroup);
    PositionalSet(Hello, DigitsGroup, '1', []);
    assert "$1" == ['$', '1'] + [];
    assert ExpandRest(Hello, DigitsGroup, []) == [];
    assert ExpandRest(Hello, DigitsGroup, "$1") == "123";
  }

  /** mod_test.ts:11-16 */
  lemma InsertNamed()
    ensures Located(Hello, DigitsNamed) && Expand(Hello, Some(DigitsNamed), "$<num>") == Some("123")
  {
    HelloLocated(DigitsNamed);
    NamedGroupToken(Hello, DigitsNamed, "num", Some("123"), []);
    assert "$<num>" == NamedToken("num") + [];
    assert ExpandRest(Hello, DigitsNamed, []) == [];
    assert CaptureText(Some("123")) == "123";
    assert ExpandRest(Hello, DigitsNamed, "$<num>") == "123";
  }

  /** mod_test.ts:18-23 */
  lemma InsertMatched()
    ensures Located(Hello, DigitsOnly) && Expand(Hello, Some(DigitsOnly), "$&") == Some("123")
  {
    HelloLocated(DigitsOnly);
    WholeMatchToken(Hello, DigitsOnly, []);
    assert "$&" == "$&" + [];
    assert ExpandRest(Hello, DigitsOnly, []) == [];
    assert ExpandRest(Hello, DigitsOnly, "$&") == "123";
  }

  /** mod_test.ts:25-30 */
  lemma InsertPreceding()
    ensures Located(Hello, DigitsOnly) && Expand(Hello, Some(DigitsOnly), "$`") == Some("hello")
  {
    HelloLocated(DigitsOnly);
    PreMatchToken(Hello, DigitsOnly, []);
    assert "$`" == "$`" + [];
    assert ExpandRest(Hello, DigitsOnly, []) == [];
    assert ExpandRest(Hello, DigitsOnly, "$`") == "hello";
  }

  /** mod_test.ts:32-37 */
  lemma InsertFollowing()
    ensures Located(Hello, DigitsOnly) && Expand(Hello, Some(DigitsOnly), "$'") == Some("world")
  {
    HelloLocated(DigitsOnly);
    PostMatchToken(Hello, DigitsOnly, []);
    assert "$'" == "$'" + [];
    assert ExpandRest(Hello, DigitsOnly, []) == [];
    assert ExpandRest(Hello, DigitsOnly, "$'") == "world";
  }

  /** The last part of the template of mod_test.ts:40: `$$1` is `$1`, and `$$$1` is `$` and then group 1. */
  lemma EscapedSigilTail()
    ensures Located(Hello, DigitsGroup) && ExpandRest(Hello, DigitsGroup, "$$1 $$$1 $$<num>") == "$1 $123 $<num>"
  {
    var x1, o1 := "<num>" + [], "<num>" + [];
    var x2, o2 := "$$" + x1, "$" + o1;
    var x3, o3 := " " + x2, " " + o2;
    var x4, o4 := "$1" + x3, "123" + o3;
    var x5, o5 := "$$" + x4, "$" + o4;
    var x6, o6 := "1 " + x5, "1 " + o5;
    var x7, o7 := "$$" + x6, "$" + o6;
    assert x7 == "$$1 $$$1 $$<num>";
    assert o7 == "$1 $123 $<num>";
    HelloLocated(DigitsGroup);
    assert ExpandRest(Hello, DigitsGroup, x1) == o1 by {
      LiteralPrefix(Hello, DigitsGroup, "<num>", []);
      assert ExpandRest(Hello, DigitsGroup, []) == [];
    }
    assert ExpandRest(Hello, DigitsGroup, x2) == o2 by {
      DoubleSigil(Hello, DigitsGroup, x1);
    }
    assert ExpandRest(Hello, DigitsGroup, x3) == o3 by {
      LiteralPrefix(Hello, DigitsGroup, " ", x2);
    }
    assert ExpandRest(Hello, DigitsGroup, x4) == o4 by {
      PositionalSet(Hello, DigitsGroup, '1', x3);
    }
    assert ExpandRest(Hello, DigitsGroup, x5) == o5 by {
      DoubleSigil(Hello, DigitsGroup, x4);
    }
    assert ExpandRest(Hello, DigitsGroup, x6) == o6 by {
      LiteralPrefix(Hello, DigitsGroup, "1 ", x5);
    }
    assert ExpandRest(Hello, DigitsGroup, x7) == o7 by {
      DoubleSigil(Hello, DigitsGroup, x6);
    }
  }

  lemma DoubleSigilSpelling()
    ensures "1 " + ("$1" + (" " + "$$1 $$$1 $$<num>")) == "1 $1 $$1 $$$1 $$<num>"
    ensures "1 " + ("123" + (" " + "$1 $123 $<num>")) == "1 123 $1 $123 $<num>"
  {
  }

  /** mod_test.ts:39-44: `$$` gives one `$`, and the character after it is
      read as text. */
  lemma IgnoreDoubleSigil()
    ensures Located(Hello, DigitsGroup) && Expand(Hello, Some(DigitsGroup), "1 $1 $$1 $$$1 $$<num>") == Some("1 123 $1 $123 $<num>")
  {
    var x0, o0 := "$$1 $$$1 $$<num>", "$1 $123 $<num>";
    var x1, o1 := " " + x0, " " + o0;
    var x2, o2 := "$1" + x1, "123" + o1;
    var x3, o3 := "1 " + x2, "1 " + o2;
    DoubleSigilSpelling();
    HelloLocated(DigitsGroup);
    assert ExpandRest(Hello, DigitsGroup, x1) == o1 by {
      LiteralPrefix(Hello, DigitsGroup, " ", x0);
      EscapedSigilTail();
    }
    assert ExpandRest(Hello, DigitsGroup, x2) == o2 by {
      PositionalSet(Hello, DigitsGroup, '1', x1);
    }
    assert ExpandRest(Hello, DigitsGroup, x3) == o3 by {
      LiteralPrefix(Hello, DigitsGroup, "1 ", x2);
    }
    assert Expand(Hello, Some(DigitsGroup), x3) == Some(o3);
  }


  /** mod_test.ts:46-51 */
  lemma IgnoreUnmatchedPositional()
    ensures Located(Hello, DigitsOnly) && Expand(Hello, Some(DigitsOnly), "$2") == Some("$2")
  {
    HelloLocated(DigitsOnly);
    PositionalFallback(Hello, DigitsOnly, '2', []);
    assert "$2" == ['$', '2'] + [];
    assert ExpandRest(Hello, DigitsOnly, []) == [];
  }

  /** mod_test.ts:53-58 */
  lemma IgnoreUnmatchedNamed()
    ensures Located(Hello, DigitsYes) && Expand(Hello, Some(DigitsYes), "$<no>") == Some("$<no>")
  {
    HelloLocated(DigitsYes);
    var tail := "no>";
    assert !StartsWith("$<" + tail, NamedToken("yes"));
    NamedGroupMiss(Hello, DigitsYes, tail);
    LiteralPrefix(Hello, DigitsYes, tail, []);
    assert "$<no>" == "$<" + tail;
    assert tail + [] == tail;
  }

  /** mod_test.ts:60-65 */
  lemma NullIfNoMatch()
    ensures Expand(Hello, None, "$&") == None
  {
  }

  const Whole: string := "123 hello 456 world 789"

  /** The source text of the kitchen-sink case. */
  const Sink: string := "---" + Whole + "---"

  /** What `/(\d+)\s(\w+)\s(?<n>\d+)\s(?<w>\w+)\s(\d+)/` reports on the kitchen-sink source. */
  const SinkMatch: Match := Match(Whole, 3, [Some("123"), Some("hello"), Some("456"), Some("world"), Some("789")],
                                  Some([("n", Some("456")), ("w", Some("world"))]))

  lemma SinkLocated()
    ensures Located(Sink, SinkMatch)
    ensures Sink[..SinkMatch.offset] == "---" && Sink[SinkMatch.offset + |SinkMatch.whole|..] == "---"
  {
    assert Sink[3..3 + |Whole|] == Whole;
  }

  /** The named groups of the kitchen-sink match have distinct keys with no `>` in them. */
  lemma SinkGroupsKeyed()
    ensures SinkMatch.groups.Some? && KeysDistinct(SinkMatch.groups.value) && NoAngle(SinkMatch.groups.value)
    ensures ("n", Some("456")) in SinkMatch.groups.value && ("w", Some("world")) in SinkMatch.groups.value
  {
    assert SinkMatch.groups.value[0] == ("n", Some("456"));
    assert SinkMatch.groups.value[1] == ("w", Some("world"));
  }

  /** `$$`, then text with no `$`, then a token: the `$$` gives one `$` and
      the text is kept, so the token after it is read as a token. */
  lemma EscapedThenToken(value: string, m: Match, text: string, token: string, output: string, s: string)
    requires Located(value, m) && '$' !in text
    requires ExpandRest(value, m, token + s) == output + ExpandRest(value, m, s)
    ensures ExpandRest(value, m, "$$" + text + token + s) == "$" + text + output + ExpandRest(value, m, s)
  {
    var rest := token + s;
    var afterSigil := text + rest;
    var e := ExpandRest(value, m, s);
    LiteralPrefix(value, m, text, rest);
    DoubleSigil(value, m, afterSigil);
    ConcatAssoc("$$", text, token, s);
    ConcatAssoc("$", text, output, e);
  }

  /** Line 1 of the kitchen-sink template, mod_test.ts:71, expected at mod_test.ts:82. */
  lemma SinkWholeLine(s: string)
    ensures Located(Sink, SinkMatch)
    ensures ExpandRest(Sink, SinkMatch, "$$& = $&" + s) == "$& = " + Whole + ExpandRest(Sink, SinkMatch, s)
  {
    assert "$$" + "& = " + "$&" == "$$& = $&";
    assert "$" + "& = " + "123 hello 456 world 789" == "$& = " + Whole;
    SinkLocated();
    WholeMatchToken(Sink, SinkMatch, s);
    EscapedThenToken(Sink, SinkMatch, "& = ", "$&", "123 hello 456 world 789", s);
  }

  /** Line 2 of the kitchen-sink template, mod_test.ts:72, expected at mod_test.ts:83. */
  lemma SinkPreLine(s: string)
    ensures Located(Sink, SinkMatch)
    ensures ExpandRest(Sink, SinkMatch, "$$`= $`" + s) == "$`= ---" + ExpandRest(Sink, SinkMatch, s)
  {
    assert "$$" + "`= " + "$`" == "$$`= $`";
    assert "$" + "`= " + "---" == "$`= ---";
    SinkLocated();
    PreMatchToken(Sink, SinkMatch, s);
    EscapedThenToken(Sink, SinkMatch, "`= ", "$`", "---", s);
  }

  /** Line 3 of the kitchen-sink template, mod_test.ts:73, expected at mod_test.ts:84. */
  lemma SinkPostLine(s: string)
    ensures Located(Sink, SinkMatch)
    ensures ExpandRest(Sink, SinkMatch, "$$'= $'" + s) == "$'= ---" + ExpandRest(Sink, SinkMatch, s)
  {
    assert "$$" + "'= " + "$'" == "$$'= $'";
    assert "$" + "'= " + "---" == "$'= ---";
    SinkLocated();
    PostMatchToken(Sink, SinkMatch, s);
    EscapedThenToken(Sink, SinkMatch, "'= ", "$'", "---", s);
  }

  /** Lines 4-8 of the kitchen-sink template, mod_test.ts:74-78, expected at
      mod_test.ts:85-89: `$$N = $N` gives `$N = ` and the text of group N. */
  lemma SinkGroupLine(d: char, capture: string, s: string)
    requires IsGroupDigit(d) && Group(SinkMatch, DigitValue(d)) == Some(capture) && capture != ""
    ensures Located(Sink, SinkMatch)
    ensures ExpandRest(Sink, SinkMatch, ['$', '$', d, ' ', '=', ' ', '$', d] + s)
         == ['$', d, ' ', '=', ' '] + capture + ExpandRest(Sink, SinkMatch, s)
  {
    var text := [d, ' ', '=', ' '];
    assert "$$" + text + ['$', d] == ['$', '$', d, ' ', '=', ' ', '$', d];
    assert "$" + text == ['$', d, ' ', '=', ' '];
    SinkLocated();
    PositionalSet(Sink, SinkMatch, d, s);
    EscapedThenToken(Sink, SinkMatch, text, ['$', d], capture, s);
  }

  /** Lines 9-10 of the kitchen-sink template, mod_test.ts:79-80, expected at
      mod_test.ts:90-91: `$$<key> = $<key>` gives `$<key> = ` and the capture of the group. */
  lemma SinkNamedLine(key: string, capture: string, s: string)
    requires '$' !in key && (key, Some(capture)) in SinkMatch.groups.value
    ensures Located(Sink, SinkMatch)
    ensures ExpandRest(Sink, SinkMatch, "$$<" + key + "> = " + NamedToken(key) + s)
         == "$<" + key + "> = " + capture + ExpandRest(Sink, SinkMatch, s)
  {
    var text := "<" + key + "> = ";
    NamedLineSpelling(key, text);
    assert CaptureText(Some(capture)) == capture;
    SinkLocated();
    SinkGroupsKeyed();
    NamedGroupToken(Sink, SinkMatch, key, Some(capture), s);
    EscapedThenToken(Sink, SinkMatch, text, NamedToken(key), capture, s);
  }

  lemma NamedLineSpelling(key: string, text: string)
    requires '$' !in key && text == "<" + key + "> = "
    ensures '$' !in text
    ensures "$$<" + key + "> = " == "$$" + text && "$<" + key + "> = " == "$" + text
  {
    assert text == ['<'] + key + ['>', ' ', '=', ' '];
  }

  /** Lines joined by line breaks, as a multi-line template literal reads. */
  function Lines(ls: seq<string>): string
    decreases |ls|
  {
    if |ls| == 0 then []
    else if |ls| == 1 then ls[0]
    else ls[0] + ("\n" + Lines(ls[1..]))
  }

  /** When each line of a template expands on its own, whatever follows it,
      the lines joined by line breaks expand to the expansions joined by line
      breaks. */
  lemma {:induction false} ExpandLines(value: string, m: Match, ls: seq<string>, os: seq<string>, s: string)
    requires Located(value, m) && |ls| == |os|
    requires forall i, t :: 0 <= i < |ls| ==> ExpandRest(value, m, ls[i] + t) == os[i] + ExpandRest(value, m, t)
    ensures ExpandRest(value, m, Lines(ls) + s) == Lines(os) + ExpandRest(value, m, s)
    decreases |ls|
  {
    var e := ExpandRest(value, m, s);
    if |ls| == 0 {
      assert Lines(ls) + s == s;
      assert Lines(os) + e == e;
    } else if |ls| == 1 {
      assert Lines(ls) == ls[0] && Lines(os) == os[0];
      assert ExpandRest(value, m, ls[0] + s) == os[0] + e;
    } else {
      var later := Lines(ls[1..]) + s;
      LinesCons(ls);
      LinesCons(os);
      DropLine(value, m, ls, os);
      ExpandLines(value, m, ls[1..], os[1..], s);
      LiteralPrefix(value, m, "\n", later);
      FirstLine(value, m, ls, os, "\n" + later);
      JoinAssoc(ls[0], "\n", Lines(ls[1..]), s);
      JoinAssoc(os[0], "\n", Lines(os[1..]), e);
    }
  }

  lemma LinesCons(ls: seq<string>)
    requires |ls| >= 2
    ensures Lines(ls) == ls[0] + ("\n" + Lines(ls[1..]))
  {
  }

  /** The per-line hypothesis of ExpandLines holds for the lines after the first. */
  lemma DropLine(value: string, m: Match, ls: seq<string>, os: seq<string>)
    requires Located(value, m) && |ls| == |os| >= 1
    requires forall i, t :: 0 <= i < |ls| ==> ExpandRest(value, m, ls[i] + t) == os[i] + ExpandRest(value, m, t)
    ensures forall i, t :: 0 <= i < |ls[1..]| ==> ExpandRest(value, m, ls[1..][i] + t) == os[1..][i] + ExpandRest(value, m, t)
  {
    forall i, t | 0 <= i < |ls[1..]|
      ensures ExpandRest(value, m, ls[1..][i] + t) == os[1..][i] + ExpandRest(value, m, t)
    {
      assert ls[1..][i] == ls[i + 1] && os[1..][i] == os[i + 1];
    }
  }

  lemma FirstLine(value: string, m: Match, ls: seq<string>, os: seq<string>, t: string)
    requires Located(value, m) && |ls| == |os| >= 1
    requires forall i, t :: 0 <= i < |ls| ==> ExpandRest(value, m, ls[i] + t) == os[i] + ExpandRest(value, m, t)
    ensures ExpandRest(value, m, ls[0] + t) == os[0] + ExpandRest(value, m, t)
  {
  }

  lemma JoinAssoc(a: string, b: string, c: string, d: string)
    ensures (a + (b + c)) + d == a + (b + (c + d))
  {
  }

  /** The template of the kitchen-sink case, mod_test.ts:71-80, line by line. */
  const SinkTemplateLines: seq<string> :=
    ["$$& = $&", "$$`= $`", "$$'= $'", "$$1 = $1", "$$2 = $2", "$$3 = $3", "$$4 = $4", "$$5 = $5", "$$<n> = $<n>", "$$<w> = $<w>"]

  /** The expected result of the kitchen-sink case, mod_test.ts:82-91, line by line. */
  const SinkExpectedLines: seq<string> :=
    ["$& = " + Whole, "$`= ---", "$'= ---", "$1 = 123", "$2 = hello", "$3 = 456", "$4 = world", "$5 = 789", "$<n> = 456", "$<w> = world"]

  /** Lines 1-3 of the kitchen-sink template: `$&`, `` $` `` and `$'`. */
  lemma SinkMatchLines(i: nat, t: string)
    requires i < 3
    ensures Located(Sink, SinkMatch) && |SinkTemplateLines| == |SinkExpectedLines|
    ensures ExpandRest(Sink, SinkMatch, SinkTemplateLines[i] + t) == SinkExpectedLines[i] + ExpandRest(Sink, SinkMatch, t)
  {
    SinkLocated();
    var ls, os := SinkTemplateLines, SinkExpectedLines;
    if i == 0 {
      assert ls[0] == "$$& = $&" && os[0] == "$& = " + Whole;
      SinkWholeLine(t);
    } else if i == 1 {
      assert ls[1] == "$$`= $`" && os[1] == "$`= ---";
      SinkPreLine(t);
    } else {
      assert ls[2] == "$$'= $'" && os[2] == "$'= ---";
      SinkPostLine(t);
    }
  }

  /** Lines 4-8 of the kitchen-sink template: `$1` to `$5`. */
  lemma SinkPositionalLines(i: nat, t: string)
    requires 3 <= i < 8
    ensures Located(Sink, SinkMatch) && |SinkTemplateLines| == |SinkExpectedLines|
    ensures ExpandRest(Sink, SinkMatch, SinkTemplateLines[i] + t) == SinkExpectedLines[i] + ExpandRest(Sink, SinkMatch, t)
  {
    SinkLocated();
    var ls, os := SinkTemplateLines, SinkExpectedLines;
    var d, capture := "12345"[i - 3], SinkMatch.positional[i - 3].value;
    assert ls[i] == ['$', '$', d, ' ', '=', ' ', '$', d];
    assert os[i] == ['$', d, ' ', '=', ' '] + capture;
    SinkGroupLine(d, capture, t);
  }

  /** Lines 9-10 of the kitchen-sink template: `$<n>` and `$<w>`. */
  lemma SinkNamedLines(i: nat, t: string)
    requires 8 <= i < 10
    ensures Located(Sink, SinkMatch) && |SinkTemplateLines| == |SinkExpectedLines|
    ensures ExpandRest(Sink, SinkMatch, SinkTemplateLines[i] + t) == SinkExpectedLines[i] + ExpandRest(Sink, SinkMatch, t)
  {
    SinkLocated();
    var ls, os := SinkTemplateLines, SinkExpectedLines;
    var key, capture := ["n", "w"][i - 8], ["456", "world"][i - 8];
    assert SinkMatch.groups.value[i - 8] == (key, Some(capture));
    assert ls[i] == "$$<" + key + "> = " + NamedToken(key);
    assert os[i] == "$<" + key + "> = " + capture;
    SinkNamedLine(key, capture, t);
  }

  /** Each line of the kitchen-sink template expands on its own, whatever follows it. */
  lemma SinkEachLine()
    ensures Located(Sink, SinkMatch) && |SinkTemplateLines| == |SinkExpectedLines|
    ensures forall i, t :: 0 <= i < |SinkTemplateLines| ==>
      ExpandRest(Sink, SinkMatch, SinkTemplateLines[i] + t) == SinkExpectedLines[i] + ExpandRest(Sink, SinkMatch, t)
  {
    SinkLocated();
    forall i, t | 0 <= i < |SinkTemplateLines|
      ensures ExpandRest(Sink, SinkMatch, SinkTemplateLines[i] + t) == SinkExpectedLines[i] + ExpandRest(Sink, SinkMatch, t)
    {
      if i < 3 {
        SinkMatchLines(i, t);
      } else if i < 8 {
        SinkPositionalLines(i, t);
      } else {
        SinkNamedLines(i, t);
      }
    }
  }

  /** The kitchen-sink case, mod_test.ts:67-94. */
  lemma KitchenSink()
    ensures Located(Sink, SinkMatch)
    ensures Expand(Sink, Some(SinkMatch), Lines(SinkTemplateLines)) == Some(Lines(SinkExpectedLines))
  {
    SinkEachLine();
    var ls, os := SinkTemplateLines, SinkExpectedLines;
    var template, expected := Lines(ls), Lines(os);
    ExpandLines(Sink, SinkMatch, ls, os, []);
    assert template + [] == template;
    assert ExpandRest(Sink, SinkMatch, []) == [];
    assert ExpandRest(Sink, SinkMatch, template) == expected + [];
    assert expected + [] == expected;
    assert Expand(Sink, Some(SinkMatch), template) == Some(expected);
  }
}
