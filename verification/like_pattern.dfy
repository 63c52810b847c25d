/**
 LIKE with escape character `\` (section 8.5 of ISO/IEC 9075-2) and the escaping of user
 input in front of it (app/infra/db/repositories/bid_repository.py).
 */
module LikePattern {
  const ESCAPE := '\\'
  const ANY_RUN := '%'
  const ANY_CHAR := '_'

  predicate IsMeta(c: char) {
    c == ESCAPE || c == ANY_RUN || c == ANY_CHAR
  }

  /** The predicate `s LIKE p ESCAPE '\'`. */
  predicate Like(p: string, s: string)
    decreases |p| + |s|
  {
    if p == [] then s == []
    else if p[0] == ANY_RUN then Like(p[1..], s) || (s != [] && Like(p, s[1..]))
    else if p[0] == ANY_CHAR then s != [] && Like(p[1..], s[1..])
    else if p[0] == ESCAPE then |p| > 1 && s != [] && p[1] == s[0] && Like(p[2..], s[1..])
    else s != [] && p[0] == s[0] && Like(p[1..], s[1..])
  }

  /** A pattern whose every escape is followed by a character; other patterns are an error in SQL. */
  predicate WellFormed(p: string) {
    if p == [] then true
    else if p[0] == ESCAPE then |p| > 1 && WellFormed(p[2..])
    else WellFormed(p[1..])
  }

  /** str.replace of one character. */
  function Replace(s: string, c: char, repl: string): string {
    if s == [] then [] else (if s[0] == c then repl else [s[0]]) + Replace(s[1..], c, repl)
  }

  /** The three replacements of `_escape_like`, the escape character first. */
  function EscapeLike(value: string): string {
    Replace(Replace(Replace(value, ESCAPE, [ESCAPE, ESCAPE]), ANY_RUN, [ESCAPE, ANY_RUN]), ANY_CHAR, [ESCAPE, ANY_CHAR])
  }

  /** Escaping each character by itself. */
  function EscapeEach(value: string): string {
    if value == [] then [] else (if IsMeta(value[0]) then [ESCAPE, value[0]] else [value[0]]) + EscapeEach(value[1..])
  }

  lemma {:induction false} ReplaceSplits(a: string, b: string, c: char, repl: string)
    ensures Replace(a + b, c, repl) == Replace(a, c, repl) + Replace(b, c, repl)
  {
    if a == [] {
      assert a + b == b;
    } else {
      assert (a + b)[1..] == a[1..] + b;
      ReplaceSplits(a[1..], b, c, repl);
    }
  }

  lemma ReplaceOne(c: char, d: char, repl: string)
    ensures Replace([c], d, repl) == if c == d then repl else [c]
  {
    assert [c][1..] == [];
  }

  lemma EscapeLikeSplits(a: string, b: string)
    ensures EscapeLike(a + b) == EscapeLike(a) + EscapeLike(b)
  {
    var a1, b1 := Replace(a, ESCAPE, [ESCAPE, ESCAPE]), Replace(b, ESCAPE, [ESCAPE, ESCAPE]);
    ReplaceSplits(a, b, ESCAPE, [ESCAPE, ESCAPE]);
    ReplaceSplits(a1, b1, ANY_RUN, [ESCAPE, ANY_RUN]);
    ReplaceSplits(Replace(a1, ANY_RUN, [ESCAPE, ANY_RUN]), Replace(b1, ANY_RUN, [ESCAPE, ANY_RUN]), ANY_CHAR, [ESCAPE, ANY_CHAR]);
  }

  lemma EscapeLikeOne(c: char)
    ensures EscapeLike([c]) == if IsMeta(c) then [ESCAPE, c] else [c]
  {
    ReplaceOne(c, ESCAPE, [ESCAPE, ESCAPE]);
    ReplaceOne(c, ANY_RUN, [ESCAPE, ANY_RUN]);
    ReplaceOne(c, ANY_CHAR, [ESCAPE, ANY_CHAR]);
    if IsMeta(c) {
      ReplaceSplits([ESCAPE], [c], ANY_RUN, [ESCAPE, ANY_RUN]);
      ReplaceSplits([ESCAPE], [c], ANY_CHAR, [ESCAPE, ANY_CHAR]);
      ReplaceOne(ESCAPE, ANY_RUN, [ESCAPE, ANY_RUN]);
      ReplaceOne(ESCAPE, ANY_CHAR, [ESCAPE, ANY_CHAR]);
      assert [ESCAPE] + [c] == [ESCAPE, c];
    }
  }

  /** In this order the replacements do not escape each other's escapes. */
  lemma {:induction false} ReplacementsEscapeEachCharacter(value: string)
    ensures EscapeLike(value) == EscapeEach(value)
  {
    if value != [] {
      assert value == [value[0]] + value[1..];
      EscapeLikeSplits([value[0]], value[1..]);
      EscapeLikeOne(value[0]);
      ReplacementsEscapeEachCharacter(value[1..]);
    }
  }

  ghost predicate StartsWith(s: string, q: string) {
    |q| <= |s| && s[..|q|] == q
  }

  ghost predicate Occurs(q: string, s: string) {
    exists i :: 0 <= i <= |s| && StartsWith(s[i..], q)
  }

  /** An escaped text at the head of a pattern matches that text and nothing else. */
  lemma {:induction false} EscapedMatchesItself(q: string, rest: string, s: string)
    ensures Like(EscapeEach(q) + rest, s) <==> StartsWith(s, q) && Like(rest, s[|q|..])
  {
    var p := EscapeEach(q) + rest;
    if q == [] {
      assert p == rest;
    } else {
      var tail := EscapeEach(q[1..]) + rest;
      if IsMeta(q[0]) {
        assert p == [ESCAPE, q[0]] + tail && p[2..] == tail;
      } else {
        assert p == [q[0]] + tail && p[1..] == tail;
      }
      if s != [] {
        EscapedMatchesItself(q[1..], rest, s[1..]);
        if |q| <= |s| {
          assert s[1..][|q| - 1..] == s[|q|..];
          assert s[..|q|] == [s[0]] + s[1..][..|q| - 1];
          assert q == [q[0]] + q[1..];
        }
      }
    }
  }

  lemma {:induction false} AnyRunSkips(rest: string, s: string)
    ensures Like([ANY_RUN] + rest, s) <==> exists k :: 0 <= k <= |s| && Like(rest, s[k..])
    decreases |s|
  {
    var p := [ANY_RUN] + rest;
    assert p[1..] == rest && s[0..] == s;
    if s != [] {
      AnyRunSkips(rest, s[1..]);
      if Like(p, s[1..]) {
        var k :| 0 <= k <= |s[1..]| && Like(rest, s[1..][k..]);
        assert s[1..][k..] == s[k + 1..];
      }
      if exists k :: 0 <= k <= |s| && Like(rest, s[k..]) {
        var k :| 0 <= k <= |s| && Like(rest, s[k..]);
        if k > 0 {
          assert s[1..][k - 1..] == s[k..];
        }
      }
    }
  }

  lemma AnyCharTakesOne(rest: string, s: string)
    ensures Like([ANY_CHAR] + rest, s) <==> s != [] && Like(rest, s[1..])
  {
    assert ([ANY_CHAR] + rest)[1..] == rest;
  }

  lemma AnyRunMatchesAll(s: string)
    ensures Like([ANY_RUN], s)
  {
    AnyRunSkips([], s);
    assert [ANY_RUN] + [] == [ANY_RUN];
    assert Like([], s[|s|..]);
  }

  /** The pattern built from a search text. */
  function ContainsPattern(q: string): string {
    [ANY_RUN] + EscapeLike(q) + [ANY_RUN]
  }

  /** It matches exactly the texts that contain the search text, whatever metacharacters it has. */
  lemma ContainsPatternMatchesOccurrences(q: string, s: string)
    ensures Like(ContainsPattern(q), s) <==> Occurs(q, s)
  {
    ReplacementsEscapeEachCharacter(q);
    var inner := EscapeEach(q) + [ANY_RUN];
    assert ContainsPattern(q) == [ANY_RUN] + inner;
    AnyRunSkips(inner, s);
    forall k | 0 <= k <= |s| ensures Like(inner, s[k..]) <==> StartsWith(s[k..], q) {
      EscapedMatchesItself(q, [ANY_RUN], s[k..]);
      if StartsWith(s[k..], q) {
        AnyRunMatchesAll(s[k..][|q|..]);
      }
    }
  }

  lemma {:induction false} EscapedIsWellFormed(q: string, rest: string)
    requires WellFormed(rest)
    ensures WellFormed(EscapeEach(q) + rest)
  {
    var p := EscapeEach(q) + rest;
    if q == [] {
      assert p == rest;
    } else {
      EscapedIsWellFormed(q[1..], rest);
      var tail := EscapeEach(q[1..]) + rest;
      if IsMeta(q[0]) {
        assert p[2..] == tail;
      } else {
        assert p[1..] == tail;
      }
    }
  }

  /** A well-formed pattern becomes malformed by an escape at its end, and well formed again by any character after that. */
  lemma {:induction false} DanglingEscapeIsMalformed(p: string, c: char)
    requires WellFormed(p)
    ensures !WellFormed(p + [ESCAPE]) && WellFormed(p + [ESCAPE, c])
    decreases |p|
  {
    if p != [] {
      var n := if p[0] == ESCAPE then 2 else 1;
      assert (p + [ESCAPE])[n..] == p[n..] + [ESCAPE] && (p + [ESCAPE, c])[n..] == p[n..] + [ESCAPE, c];
      DanglingEscapeIsMalformed(p[n..], c);
    } else {
      assert p + [ESCAPE] == [ESCAPE] && p + [ESCAPE, c] == [ESCAPE, c];
    }
  }

  lemma ContainsPatternIsWellFormed(q: string)
    ensures WellFormed(ContainsPattern(q))
  {
    ReplacementsEscapeEachCharacter(q);
    EscapedIsWellFormed(q, [ANY_RUN]);
    assert ContainsPattern(q)[1..] == EscapeEach(q) + [ANY_RUN];
    assert WellFormed([ANY_RUN]) by { assert [ANY_RUN][1..] == []; }
  }

  // ---------------------------------------------------------------- ILIKE

  /** Case folding, one character at a time, that leaves the metacharacters alone. */
  ghost predicate KeepsMeta(fold: char -> char) {
    forall c :: (IsMeta(c) ==> fold(c) == c) && (IsMeta(fold(c)) ==> IsMeta(c))
  }

  function Fold(s: string, fold: char -> char): string {
    if s == [] then [] else [fold(s[0])] + Fold(s[1..], fold)
  }

  predicate ILike(p: string, s: string, fold: char -> char) {
    Like(Fold(p, fold), Fold(s, fold))
  }

  lemma {:induction false} FoldSplits(a: string, b: string, fold: char -> char)
    ensures Fold(a + b, fold) == Fold(a, fold) + Fold(b, fold)
  {
    if a == [] {
      assert a + b == b;
    } else {
      assert (a + b)[1..] == a[1..] + b;
      FoldSplits(a[1..], b, fold);
    }
  }

  lemma {:induction false} FoldOfEscaped(q: string, fold: char -> char)
    requires KeepsMeta(fold)
    ensures Fold(EscapeEach(q), fold) == EscapeEach(Fold(q, fold))
  {
    if q != [] {
      FoldOfEscaped(q[1..], fold);
      assert IsMeta(q[0]) <==> IsMeta(fold(q[0]));
      var head := if IsMeta(q[0]) then [ESCAPE, q[0]] else [q[0]];
      assert EscapeEach(q) == head + EscapeEach(q[1..]);
      FoldSplits(head, EscapeEach(q[1..]), fold);
      assert Fold([q[0]], fold) == [fold(q[0])];
      if IsMeta(q[0]) {
        assert [ESCAPE, q[0]][1..] == [q[0]];
      }
    }
  }

  /** The case-insensitive search matches exactly the texts that contain the search text up to case. */
  lemma ILikeMatchesFoldedOccurrences(q: string, s: string, fold: char -> char)
    requires KeepsMeta(fold)
    ensures ILike(ContainsPattern(q), s, fold) <==> Occurs(Fold(q, fold), Fold(s, fold))
  {
    var folded := Fold(q, fold);
    ReplacementsEscapeEachCharacter(q);
    ReplacementsEscapeEachCharacter(folded);
    FoldOfEscaped(q, fold);
    assert Fold([ANY_RUN], fold) == [ANY_RUN];
    FoldSplits([ANY_RUN], EscapeLike(q), fold);
    FoldSplits([ANY_RUN] + EscapeLike(q), [ANY_RUN], fold);
    ContainsPatternMatchesOccurrences(folded, Fold(s, fold));
  }
}
