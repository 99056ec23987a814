/**
 The substring test of the PostgreSQL trace store: escapeLike and the pattern it goes into
 (trace/pg/trace_store.go). The like predicate is that of section 8.5 of ISO/IEC 9075-2, with
 backslash as the escape character.
 */
module TraceLike {
  const BACKSLASH := '\\'

  /** strings.ReplaceAll for a nonempty `old`: leftmost matches, none overlapping. */
  function ReplaceAll(s: string, old': string, new': string): string
    requires old' != ""
    decreases |s|
  {
    if |s| < |old'| then s
    else if s[..|old'|] == old' then new' + ReplaceAll(s[|old'|..], old', new')
    else [s[0]] + ReplaceAll(s[1..], old', new')
  }

  function EscapeLike(s: string): string {
    var s1 := ReplaceAll(s, "\\", "\\\\");
    var s2 := ReplaceAll(s1, "%", "\\%");
    ReplaceAll(s2, "_", "\\_")
  }

  predicate Special(c: char) {
    c == BACKSLASH || c == '%' || c == '_'
  }

  /** The escape that the three replacements amount to: a backslash before each special character. */
  function EscapeChars(s: string): string {
    if s == "" then ""
    else (if Special(s[0]) then [BACKSLASH, s[0]] else [s[0]]) + EscapeChars(s[1..])
  }

  /** name LIKE pattern ESCAPE '\'. A pattern that ends in the escape character matches nothing. */
  predicate Like(name: string, pattern: string)
    decreases |pattern|
  {
    if pattern == "" then name == ""
    else if pattern[0] == '%' then exists k | 0 <= k <= |name| :: Like(name[k..], pattern[1..])
    else if pattern[0] == '_' then name != "" && Like(name[1..], pattern[1..])
    else if pattern[0] == BACKSLASH then
      |pattern| > 1 && name != "" && name[0] == pattern[1] && Like(name[1..], pattern[2..])
    else name != "" && name[0] == pattern[0] && Like(name[1..], pattern[1..])
  }

  /** strings.Contains */
  predicate Contains(s: string, sub: string) {
    exists i | 0 <= i <= |s| :: sub <= s[i..]
  }

  // ---------------------------------------------------------------- three replacements, one escape

  lemma {:induction false} ReplaceAllConcat(a: string, b: string, c: char, new': string)
    ensures ReplaceAll(a + b, [c], new') == ReplaceAll(a, [c], new') + ReplaceAll(b, [c], new')
    decreases |a|
  {
    if a == "" {
      assert a + b == b;
    } else {
      assert (a + b)[1..] == a[1..] + b;
      ReplaceAllConcat(a[1..], b, c, new');
    }
  }

  lemma ReplaceAllOne(x: char, c: char, new': string)
    ensures ReplaceAll([x], [c], new') == if x == c then new' else [x]
  {
    assert [x][1..] == "";
  }

  lemma ReplaceAllTwo(x: char, y: char, c: char, new': string)
    requires x != c
    ensures ReplaceAll([x, y], [c], new') == [x] + ReplaceAll([y], [c], new')
  {
    assert [x, y][1..] == [y];
  }

  lemma EscapeLikeOne(x: char)
    ensures EscapeLike([x]) == EscapeChars([x])
  {
    ReplaceAllOne(x, BACKSLASH, "\\\\");
    ReplaceAllOne(x, '%', "\\%");
    ReplaceAllOne(x, '_', "\\_");
    if x == BACKSLASH {
      ReplaceAllTwo(BACKSLASH, BACKSLASH, '%', "\\%");
      ReplaceAllTwo(BACKSLASH, BACKSLASH, '_', "\\_");
    } else if x == '%' {
      ReplaceAllTwo(BACKSLASH, '%', '_', "\\_");
    }
    assert [x][1..] == "";
  }

  lemma {:induction false} EscapeLikeIsCharacterwise(s: string)
    ensures EscapeLike(s) == EscapeChars(s)
    decreases |s|
  {
    if s != "" {
      var head, tail := [s[0]], s[1..];
      assert s == head + tail;
      ReplaceAllConcat(head, tail, BACKSLASH, "\\\\");
      var h1, t1 := ReplaceAll(head, "\\", "\\\\"), ReplaceAll(tail, "\\", "\\\\");
      ReplaceAllConcat(h1, t1, '%', "\\%");
      var h2, t2 := ReplaceAll(h1, "%", "\\%"), ReplaceAll(t1, "%", "\\%");
      ReplaceAllConcat(h2, t2, '_', "\\_");
      EscapeLikeOne(s[0]);
      EscapeLikeIsCharacterwise(tail);
      assert EscapeChars(head) == (if Special(s[0]) then [BACKSLASH, s[0]] else [s[0]]);
    }
  }

  // ---------------------------------------------------------------- what the pattern matches

  /** An escaped text matches itself and nothing else. */
  lemma {:induction false} EscapedMatchesLiterally(name: string, s: string, rest: string)
    ensures Like(name, EscapeChars(s) + rest) <==> s <= name && Like(name[|s|..], rest)
    decreases |s|
  {
    if s == "" {
      assert EscapeChars(s) + rest == rest && name[|s|..] == name;
    } else {
      var pattern := EscapeChars(s) + rest;
      var step := if Special(s[0]) then 2 else 1;
      assert pattern[step..] == EscapeChars(s[1..]) + rest;
      if name != "" && name[0] == s[0] {
        EscapedMatchesLiterally(name[1..], s[1..], rest);
        if |s| <= |name| { assert name[1..][|s| - 1..] == name[|s|..]; }
        assert s <= name <==> s[1..] <= name[1..];
      }
    }
  }

  lemma PercentMatchesAll(name: string)
    ensures Like(name, "%")
  {
    assert name[|name|..] == "" && "%"[1..] == "";
    assert Like(name[|name|..], "%"[1..]);
  }

  /** The pattern that ListTraces passes for a name filter. */
  function ContainsPattern(s: string): string {
    "%" + EscapeLike(s) + "%"
  }

  /** For every name and every text, special characters or not, the pattern tests for a substring. */
  lemma PatternMeansContains(name: string, s: string)
    ensures Like(name, ContainsPattern(s)) <==> Contains(name, s)
  {
    EscapeLikeIsCharacterwise(s);
    assert ContainsPattern(s)[1..] == EscapeChars(s) + "%";
    forall k | 0 <= k <= |name|
      ensures Like(name[k..], EscapeChars(s) + "%") <==> s <= name[k..]
    {
      EscapedMatchesLiterally(name[k..], s, "%");
      if s <= name[k..] { PercentMatchesAll(name[k..][|s|..]); }
    }
  }
}
