/** `expand` as mod.ts writes it: a scan over the template with an index and an
    output accumulator, proved equal to the specification in module Template.
    One pass of the outer `while` body (mod.ts:24-101) is the method ScanToken;
    where the source leaves the key scan with `continue outerloop`, ScanToken
    returns and the outer loop goes on with its next pass. */
module Expander {
  import opened Wrappers
  import opened Template

  function Min(a: int, b: int): int {
    if a <= b then a else b
  }

  /** The body of the scan loop at index `idx`: what it appends to the output
      and the index it moves to are those of the token the specification
      classifies there. */
  method ScanToken(value: string, matches: Match, template: string, idx: nat) returns (emitted: string, next: nat)
    requires Located(value, matches) && idx < |template|
    ensures next == idx + |Text(Classify(matches, template[idx..]))|
    ensures emitted == Resolve(value, matches, Classify(matches, template[idx..]))
  {
    ghost var rest := template[idx..];
    var currentChar := template[idx];
    if idx >= |template| - 1 {
      return [currentChar], idx + 1;
    }
    var nextChar := template[idx + 1];
    if currentChar != '$' {
      emitted, next := [currentChar], idx + 1;
    } else if nextChar == '$' {
      emitted, next := "$", idx + 2;
    } else if nextChar == '&' {
      emitted, next := matches.whole, idx + 2;
    } else if nextChar == '`' {
      emitted, next := value[..matches.offset], idx + 2;
    } else if nextChar == '\'' {
      emitted, next := value[matches.offset + |matches.whole|..], idx + 2;
    } else if IsGroupDigit(nextChar) {
      var positional := Group(matches, DigitValue(nextChar));
      if positional.Some? && positional.value != "" {
        emitted := positional.value;
      } else {
        emitted := [currentChar, nextChar];
      }
      next := idx + 2;
    } else if nextChar == '<' {
      if matches.groups.None? {
        return [currentChar, nextChar], idx + 2;
      }
      var groups := matches.groups.value;
      var i := 0;
      while i < |groups|
        invariant 0 <= i <= |groups|
        invariant forall j :: 0 <= j < i ==> !StartsWith(rest, NamedToken(groups[j].0))
      {
        var key := groups[i].0;
        var substringOffset := idx + |key| + 3;
        if template[idx..Min(substringOffset, |template|)] == "$<" + key + ">" {
          assert rest[..|key| + 3] == template[idx..substringOffset];
          assert FirstKey(groups, rest, 0) == Some(i);
          return CaptureText(groups[i].1), substringOffset;
        }
        i := i + 1;
      }
      emitted, next := [currentChar, nextChar], idx + 2;
    } else {
      emitted, next := [currentChar], idx + 1;
    }
  }

  /** Appending what the token at `idx` expands to, and moving to where it
      ends, keeps the output so far plus the expansion of what remains unchanged. */
  lemma Advance(value: string, m: Match, template: string, idx: nat, res: string, emitted: string, next: nat)
    requires Located(value, m) && idx < |template|
    requires emitted == Resolve(value, m, Classify(m, template[idx..]))
    requires next == idx + |Text(Classify(m, template[idx..]))|
    ensures next <= |template|
    ensures (res + emitted) + ExpandRest(value, m, template[next..]) == res + ExpandRest(value, m, template[idx..])
  {
    var rest := template[idx..];
    var tok := Classify(m, rest);
    var later := template[next..];
    SuffixOfSuffix(template, idx, |Text(tok)|);
    StepRest(value, m, rest, tok, later);
    AppendAssoc(res, emitted, ExpandRest(value, m, later));
  }

  /** One token of a remaining template, and what comes after it. */
  lemma StepRest(value: string, m: Match, rest: string, tok: Token, later: string)
    requires Located(value, m) && rest != [] && tok == Classify(m, rest) && later == rest[|Text(tok)|..]
    ensures ExpandRest(value, m, rest) == Resolve(value, m, tok) + ExpandRest(value, m, later)
  {
    ExpandStep(value, m, rest, tok);
  }

  lemma AppendAssoc(a: string, b: string, c: string)
    ensures (a + b) + c == a + (b + c)
  {
  }

  lemma SuffixOfSuffix(s: string, i: nat, k: nat)
    requires i + k <= |s|
    ensures s[i..][k..] == s[i + k..]
  {
  }

  /** The scan of mod.ts:17-104; `m` stands for the result of `regex.exec(value)`. */
  method ExpandTemplate(value: string, m: Option<Match>, template: string) returns (r: Option<string>)
    requires m.Some? ==> Located(value, m.value)
    ensures r == Expand(value, m, template)
  {
    if m.None? {
      return None;
    }
    var matches := m.value;
    var idx := 0;
    var res := "";
    ghost var whole := ExpandRest(value, matches, template);

    while idx < |template|
      invariant 0 <= idx <= |template|
      invariant res + ExpandRest(value, matches, template[idx..]) == whole
      decreases |template| - idx
    {
      var emitted, next := ScanToken(value, matches, template, idx);
      Advance(value, matches, template, idx, res, emitted, next);
      res := res + emitted;
      idx := next;
    }
    assert template[idx..] == [];
    assert ExpandRest(value, matches, []) == [];
    assert res == whole;
    assert Expand(value, m, template) == Some(whole);
    return Some(res);
  }
}
