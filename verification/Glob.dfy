/** The glob language of `fnmatch.fnmatchcase`, as scopes and policy rules use it. */
module Glob {

  datatype Token =
    | Star
    | AnyChar
    | Class(negated: bool, ranges: seq<(char, char)>)
    | Literal(c: char)

  predicate IsWildcard(c: char) { c == '*' || c == '?' || c == '[' }

  predicate HasWildcard(pattern: string)
  {
    exists i | 0 <= i < |pattern| :: IsWildcard(pattern[i])
  }

  /** Index of the ']' closing a class whose body starts at `from`, or |p| if there is none. */
  function ClassEnd(p: string, from: nat): (end: nat)
    requires from <= |p|
    ensures from <= end <= |p|
    decreases |p| - from
  {
    if from == |p| || p[from] == ']' then from else ClassEnd(p, from + 1)
  }

  function Ranges(body: string): seq<(char, char)>
  {
    if body == "" then []
    else if |body| >= 3 && body[1] == '-' then [(body[0], body[2])] + Ranges(body[3..])
    else [(body[0], body[0])] + Ranges(body[1..])
  }

  function Tokenize(p: string): seq<Token>
    decreases |p|
  {
    if p == "" then []
    else if p[0] == '*' then [Star] + Tokenize(p[1..])
    else if p[0] == '?' then [AnyChar] + Tokenize(p[1..])
    else if p[0] != '[' then [Literal(p[0])] + Tokenize(p[1..])
    else
      var negated := |p| > 1 && p[1] == '!';
      var start := if negated then 2 else 1;
      // A ']' in first position belongs to the class.
      var end := ClassEnd(p, if start < |p| && p[start] == ']' then start + 1 else start);
      if end == |p| then [Literal('[')] + Tokenize(p[1..])
      else [Class(negated, Ranges(p[start..end]))] + Tokenize(p[end+1..])
  }

  predicate MatchesOne(t: Token, c: char)
  {
    match t
    case Star => true
    case AnyChar => true
    case Literal(l) => c == l
    case Class(negated, ranges) =>
      (exists i | 0 <= i < |ranges| :: ranges[i].0 <= c <= ranges[i].1) != negated
  }

  predicate MatchesTokens(tokens: seq<Token>, s: string)
    decreases |tokens| + |s|
  {
    if tokens == [] then s == ""
    else if tokens[0].Star? then
      MatchesTokens(tokens[1..], s) || (s != "" && MatchesTokens(tokens, s[1..]))
    else
      s != "" && MatchesOne(tokens[0], s[0]) && MatchesTokens(tokens[1..], s[1..])
  }

  /** `fnmatch.fnmatchcase(value, pattern)` */
  predicate Matches(value: string, pattern: string)
  {
    MatchesTokens(Tokenize(pattern), value)
  }

  lemma {:induction false} StarMatchesEverything(s: string)
    ensures MatchesTokens([Star], s)
  {
    if s != "" { StarMatchesEverything(s[1..]); }
  }

  /** The pattern "*" accepts every value. */
  lemma UniversalPattern(value: string)
    ensures Matches(value, "*")
  {
    assert Tokenize("*") == [Star] by {
      assert "*"[1..] == "" && Tokenize("") == [];
    }
    StarMatchesEverything(value);
  }

  /** A pattern without wildcards accepts itself and nothing else. */
  lemma {:induction false} ExactPattern(value: string, pattern: string)
    requires !HasWildcard(pattern)
    ensures Matches(value, pattern) <==> value == pattern
    decreases |pattern|
  {
    if pattern != "" {
      assert !IsWildcard(pattern[0]);
      assert Tokenize(pattern) == [Literal(pattern[0])] + Tokenize(pattern[1..]);
      assert Tokenize(pattern)[1..] == Tokenize(pattern[1..]);
      if value != "" {
        assert forall i | 0 <= i < |pattern| - 1 :: pattern[1..][i] == pattern[i+1];
        ExactPattern(value[1..], pattern[1..]);
        assert value == [value[0]] + value[1..] && pattern == [pattern[0]] + pattern[1..];
      }
    }
  }

  /** One token matches a text by itself: "*" any text, every other token one character. */
  lemma TokenMeaning(t: Token, s: string)
    ensures MatchesTokens([t], s) <==> t.Star? || (|s| == 1 && MatchesOne(t, s[0]))
  {
    if t.Star? {
      StarMatchesEverything(s);
    } else if s != "" {
      assert [t][1..] == [];
    }
  }

  ghost predicate SplitsAt(a: seq<Token>, b: seq<Token>, s: string, k: nat)
    requires k <= |s|
  {
    MatchesTokens(a, s[..k]) && MatchesTokens(b, s[k..])
  }

  /** Matching is concatenation of languages: tokens in sequence match a text cut in two. */
  lemma {:induction false} ConcatenationMeaning(a: seq<Token>, b: seq<Token>, s: string)
    ensures MatchesTokens(a + b, s) <==> exists k: nat :: k <= |s| && SplitsAt(a, b, s, k)
    decreases |a| + |s|
  {
    if a == [] {
      assert a + b == b && s[..0] == "" && s[0..] == s;
      if MatchesTokens(b, s) { assert SplitsAt(a, b, s, 0); }
      forall k: nat | k <= |s| && SplitsAt(a, b, s, k) ensures MatchesTokens(b, s) {
        assert k == 0;
      }
    } else {
      assert (a + b)[0] == a[0] && (a + b)[1..] == a[1..] + b;
      ConcatenationMeaning(a[1..], b, s);
      if s != "" { ConcatenationMeaning(if a[0].Star? then a else a[1..], b, s[1..]); }
      SplitForward(a, b, s);
      SplitBackward(a, b, s);
    }
  }

  /** A cut of the text for `a` and `b` is a cut for what remains of them after one step. */
  lemma SplitForward(a: seq<Token>, b: seq<Token>, s: string)
    requires a != []
    requires MatchesTokens(a[1..] + b, s) <==> exists k: nat :: k <= |s| && SplitsAt(a[1..], b, s, k)
    requires s != "" ==>
      var rest := if a[0].Star? then a else a[1..];
      MatchesTokens(rest + b, s[1..]) <==> exists k: nat :: k <= |s| - 1 && SplitsAt(rest, b, s[1..], k)
    ensures (exists k: nat :: k <= |s| && SplitsAt(a, b, s, k)) ==> MatchesTokens(a + b, s)
  {
    assert (a + b)[0] == a[0] && (a + b)[1..] == a[1..] + b;
    if k: nat :| k <= |s| && SplitsAt(a, b, s, k) {
      var left := s[..k];
      if a[0].Star? && MatchesTokens(a[1..], left) {
        assert SplitsAt(a[1..], b, s, k);
      } else {
        assert left != "" && left[1..] == s[1..][..k-1] && s[k..] == s[1..][k-1..];
        assert SplitsAt(if a[0].Star? then a else a[1..], b, s[1..], k - 1);
      }
    }
  }

  lemma SplitBackward(a: seq<Token>, b: seq<Token>, s: string)
    requires a != []
    requires MatchesTokens(a[1..] + b, s) <==> exists k: nat :: k <= |s| && SplitsAt(a[1..], b, s, k)
    requires s != "" ==>
      var rest := if a[0].Star? then a else a[1..];
      MatchesTokens(rest + b, s[1..]) <==> exists k: nat :: k <= |s| - 1 && SplitsAt(rest, b, s[1..], k)
    ensures MatchesTokens(a + b, s) ==> exists k: nat :: k <= |s| && SplitsAt(a, b, s, k)
  {
    assert (a + b)[0] == a[0] && (a + b)[1..] == a[1..] + b;
    if MatchesTokens(a + b, s) {
      if a[0].Star? && MatchesTokens(a[1..] + b, s) {
        var k: nat :| k <= |s| && SplitsAt(a[1..], b, s, k);
        assert SplitsAt(a, b, s, k);
      } else {
        var rest := if a[0].Star? then a else a[1..];
        var k: nat :| k <= |s| - 1 && SplitsAt(rest, b, s[1..], k);
        assert s[..k+1][1..] == s[1..][..k] && s[k+1..] == s[1..][k..] && s[..k+1][0] == s[0];
        assert SplitsAt(a, b, s, k + 1);
      }
    }
  }

  ghost predicate MatchesFrom(value: string, k: nat, pattern: string)
    requires k <= |value|
  {
    Matches(value[k..], pattern)
  }

  /** How a pattern begins: "*" skips any text, "?" one character, */
  lemma WildcardHead(value: string, rest: string)
    ensures Matches(value, "*" + rest) <==> exists k: nat :: k <= |value| && MatchesFrom(value, k, rest)
    ensures Matches(value, "?" + rest) <==> value != "" && Matches(value[1..], rest)
  {
    assert ("*" + rest)[1..] == rest && ("?" + rest)[1..] == rest;
    ConcatenationMeaning([Star], Tokenize(rest), value);
    forall k: nat | k <= |value| ensures SplitsAt([Star], Tokenize(rest), value, k) <==> MatchesFrom(value, k, rest) {
      StarMatchesEverything(value[..k]);
    }
  }

  /** an ordinary character itself, as does a "[" that is never closed, */
  lemma LiteralHead(value: string, c: char, rest: string)
    requires !IsWildcard(c) || (c == '[' && ']' !in rest)
    ensures Matches(value, [c] + rest) <==> value != "" && value[0] == c && Matches(value[1..], rest)
  {
    var p := [c] + rest;
    assert p[1..] == rest;
    if c == '[' {
      assert forall i | 1 <= i < |p| :: p[i] == rest[i-1];
      NeverClosed(p, 1);
      if |p| > 1 { NeverClosed(p, 2); }
    }
  }

  /** a class one character of it, and a negated class one of no other kind. */
  lemma ClassHead(value: string, body: string, rest: string)
    requires body != "" && ']' !in body[1..]
    ensures body[0] != '!' ==>
      (Matches(value, "[" + body + "]" + rest) <==> value != "" && InClass(value[0], body) && Matches(value[1..], rest))
    ensures Matches(value, "[!" + body + "]" + rest) <==>
      value != "" && !InClass(value[0], body) && Matches(value[1..], rest)
  {
    if body[0] != '!' { ClassTokens(body, rest, false); }
    ClassTokens(body, rest, true);
  }

  predicate InClass(c: char, body: string)
  {
    var ranges := Ranges(body);
    exists i | 0 <= i < |ranges| :: ranges[i].0 <= c <= ranges[i].1
  }

  /** A class body holds its characters, and between two of them joined by a hyphen every one. */
  lemma ClassMeaning(c: char, x: char, y: char, body: string)
    ensures !InClass(c, "")
    ensures body == "" || body[0] != '-' || |body| == 1 ==>
      (InClass(c, [x] + body) <==> c == x || InClass(c, body))
    ensures InClass(c, [x, '-', y] + body) <==> x <= c <= y || InClass(c, body)
  {
    assert ([x] + body)[1..] == body && ([x, '-', y] + body)[3..] == body;
    if body == "" || body[0] != '-' || |body| == 1 {
      assert Ranges([x] + body) == [(x, x)] + Ranges(body);
      OneMoreRange(c, (x, x), Ranges(body));
    }
    assert Ranges([x, '-', y] + body) == [(x, y)] + Ranges(body);
    OneMoreRange(c, (x, y), Ranges(body));
  }

  lemma OneMoreRange(c: char, range: (char, char), ranges: seq<(char, char)>)
    ensures var more := [range] + ranges;
      (exists i | 0 <= i < |more| :: more[i].0 <= c <= more[i].1) <==>
        range.0 <= c <= range.1 || exists i | 0 <= i < |ranges| :: ranges[i].0 <= c <= ranges[i].1
  {
    var more := [range] + ranges;
    assert more[0] == range;
    forall i | 0 <= i < |ranges| ensures more[i+1] == ranges[i] {}
  }

  lemma {:induction false} NeverClosed(p: string, from: nat)
    requires from <= |p| && forall i | from <= i < |p| :: p[i] != ']'
    ensures ClassEnd(p, from) == |p|
    decreases |p| - from
  {
    if from < |p| { NeverClosed(p, from + 1); }
  }

  lemma {:induction false} ClosedAt(p: string, from: nat, end: nat)
    requires from <= end < |p| && p[end] == ']' && forall i | from <= i < end :: p[i] != ']'
    ensures ClassEnd(p, from) == end
    decreases end - from
  {
    if from < end { ClosedAt(p, from + 1, end); }
  }

  lemma ClassTokens(body: string, rest: string, negated: bool)
    requires body != "" && ']' !in body[1..] && (negated || body[0] != '!')
    ensures Tokenize((if negated then "[!" else "[") + body + "]" + rest)
         == [Class(negated, Ranges(body))] + Tokenize(rest)
  {
    var start := if negated then 2 else 1;
    var p := (if negated then "[!" else "[") + body + "]" + rest;
    var end := start + |body|;
    assert p[start..end] == body && p[end+1..] == rest && p[end] == ']';
    assert forall i | start < i < end :: p[i] == body[1..][i-start-1];
    ClosedAt(p, if p[start] == ']' then start + 1 else start, end);
  }

  lemma {:induction false} TokenizeThenStar(prefix: string)
    requires !HasWildcard(prefix)
    ensures Tokenize(prefix + "*") == Tokenize(prefix) + [Star]
  {
    if prefix == "" {
      assert prefix + "*" == "*" && "*"[1..] == "";
    } else {
      assert !IsWildcard(prefix[0]);
      assert (prefix + "*")[1..] == prefix[1..] + "*";
      assert forall i | 0 <= i < |prefix| - 1 :: prefix[1..][i] == prefix[i+1];
      TokenizeThenStar(prefix[1..]);
    }
  }

  /** A wildcard-free text followed by "*" matches exactly what starts with that text. */
  lemma PrefixPattern(value: string, prefix: string)
    requires !HasWildcard(prefix)
    ensures Matches(value, prefix + "*") <==> prefix <= value
  {
    TokenizeThenStar(prefix);
    ConcatenationMeaning(Tokenize(prefix), [Star], value);
    if prefix <= value {
      ExactPattern(value[..|prefix|], prefix);
      StarMatchesEverything(value[|prefix|..]);
      assert SplitsAt(Tokenize(prefix), [Star], value, |prefix|);
    }
    if k: nat :| k <= |value| && SplitsAt(Tokenize(prefix), [Star], value, k) {
      ExactPattern(value[..k], prefix);
    }
  }

  /** `_scope_pattern_subset`: conservative inclusion of glob languages. */
  predicate ScopeSubset(child: string, parent: string)
  {
    child == parent || parent == "*" || (!HasWildcard(child) && Matches(child, parent))
  }

  /** Whatever a narrower pattern accepts, the wider one accepts. */
  lemma ScopeSubsetSound(value: string, child: string, parent: string)
    requires ScopeSubset(child, parent) && Matches(value, child)
    ensures Matches(value, parent)
  {
    if parent == "*" {
      UniversalPattern(value);
    } else if child != parent {
      ExactPattern(value, child);
    }
  }

  /** The inclusion is exact for a pattern without wildcards; any other is included in itself and in "*" alone. */
  lemma ScopeSubsetMeaning(child: string, parent: string)
    ensures !HasWildcard(child) ==>
      (ScopeSubset(child, parent) <==> forall value | Matches(value, child) :: Matches(value, parent))
    ensures HasWildcard(child) ==> (ScopeSubset(child, parent) <==> parent in {child, "*"})
  {
    if !HasWildcard(child) {
      ExactPattern(child, child);
      forall value ensures Matches(value, child) <==> value == child { ExactPattern(value, child); }
      forall value | ScopeSubset(child, parent) && Matches(value, child) ensures Matches(value, parent) {
        ScopeSubsetSound(value, child, parent);
      }
    }
  }

  lemma ScopeSubsetTransitive(child: string, middle: string, parent: string)
    requires ScopeSubset(child, middle) && ScopeSubset(middle, parent)
    ensures ScopeSubset(child, parent)
  {
    if child != middle && middle != parent && parent != "*" {
      if middle == "*" {
        assert IsWildcard(middle[0]);
      } else {
        ExactPattern(child, middle);
      }
    }
  }
}
