/** The wildcard matcher of the test framework. */
module Wildcard {

  // A C string is the sequence of its characters before the terminator.

  function Lower(c: char): char {
    if 'A' <= c <= 'Z' then (c as int + 32) as char else c
  }

  predicate Same(w: char, c: char, caseSensitive: bool) {
    if caseSensitive then w == c else Lower(w) == Lower(c)
  }

  /** The pattern character `w`, which is not a star, accepts the character `c`. */
  predicate Fits(w: char, c: char, caseSensitive: bool) {
    w == '?' || Same(w, c, caseSensitive)
  }

  /** `*` stands for any string, `?` for any character, any other character for itself. */
  ghost predicate Matches(s: string, p: string, cs: bool)
    decreases |p|
  {
    if p == [] then s == []
    else if p[0] == '*' then exists k :: 0 <= k <= |s| && Matches(s[k..], p[1..], cs)
    else s != [] && Fits(p[0], s[0], cs) && Matches(s[1..], p[1..], cs)
  }

  // ---------- the pattern language ----------

  /** A concatenation of patterns matches exactly the concatenations of what they match. */
  lemma {:induction false} MatchesConcat(s: string, p: string, q: string, cs: bool)
    ensures Matches(s, p + q, cs) <==> exists k :: 0 <= k <= |s| && Matches(s[..k], p, cs) && Matches(s[k..], q, cs)
    decreases |p|
  {
    if Matches(s, p + q, cs) {
      var k := ConcatSplit(s, p, q, cs);
    }
    if k :| 0 <= k <= |s| && Matches(s[..k], p, cs) && Matches(s[k..], q, cs) {
      ConcatJoin(s, k, p, q, cs);
    }
  }

  lemma {:induction false} ConcatSplit(s: string, p: string, q: string, cs: bool) returns (k: nat)
    requires Matches(s, p + q, cs)
    ensures k <= |s| && Matches(s[..k], p, cs) && Matches(s[k..], q, cs)
    decreases |p|
  {
    if p == [] {
      k := 0;
      assert p + q == q && s[0..] == s;
    } else {
      assert (p + q)[0] == p[0] && (p + q)[1..] == p[1..] + q;
      if p[0] == '*' {
        var n: nat :| n <= |s| && Matches(s[n..], p[1..] + q, cs);
        var m := ConcatSplit(s[n..], p[1..], q, cs);
        k := n + m;
        assert s[..k][n..] == s[n..][..m] && s[k..] == s[n..][m..];
        assert Matches(s[..k][n..], p[1..], cs);
      } else {
        var m := ConcatSplit(s[1..], p[1..], q, cs);
        k := 1 + m;
        assert s[..k][1..] == s[1..][..m] && s[k..] == s[1..][m..];
      }
    }
  }

  lemma {:induction false} ConcatJoin(s: string, k: nat, p: string, q: string, cs: bool)
    requires k <= |s| && Matches(s[..k], p, cs) && Matches(s[k..], q, cs)
    ensures Matches(s, p + q, cs)
    decreases |p|
  {
    if p == [] {
      assert p + q == q && k == 0 && s[0..] == s;
    } else {
      var rest := p[1..] + q;
      assert (p + q)[0] == p[0] && (p + q)[1..] == rest;
      if p[0] == '*' {
        var n: nat :| n <= k && Matches(s[..k][n..], p[1..], cs);
        var t := s[n..];
        assert s[..k][n..] == t[..k - n] && t[k - n..] == s[k..];
        ConcatJoin(t, k - n, p[1..], q, cs);
        assert Matches(t, rest, cs);
      } else {
        assert s[..k][1..] == s[1..][..k - 1] && s[1..][k - 1..] == s[k..];
        ConcatJoin(s[1..], k - 1, p[1..], q, cs);
      }
    }
  }

  /** The same letter, one of the two capital. */
  predicate OtherCase(w: char, c: char) {
    || ('A' <= w <= 'Z' && 'a' <= c <= 'z' && c as int - 'a' as int == w as int - 'A' as int)
    || ('a' <= w <= 'z' && 'A' <= c <= 'Z' && w as int - 'a' as int == c as int - 'A' as int)
  }

  /** A pattern character other than the star and a character it stands for. */
  predicate StandsFor(w: char, c: char, cs: bool) {
    w == '?' || w == c || (!cs && OtherCase(w, c))
  }

  /** What one pattern character stands for: a star for any string, a question mark for any single character. */
  lemma OneCharacter(s: string, w: char, cs: bool)
    ensures Matches(s, [w], cs) <==>
      w == '*' || (|s| == 1 && StandsFor(w, s[0], cs))
  {
    assert [w][1..] == [];
    if w == '*' {
      assert s[|s|..] == [];
      assert Matches(s[|s|..], [w][1..], cs);
    } else if s != [] {
      assert Matches(s[1..], [], cs) <==> |s| == 1;
    }
  }

  /** Nothing but the empty string matches the empty pattern. */
  lemma NoCharacter(s: string, cs: bool)
    ensures Matches(s, "", cs) <==> s == ""
  {
  }

  /** A pattern of question marks matches exactly the strings of its length. */
  lemma {:induction false} QuestionMarks(s: string, p: string, cs: bool)
    requires forall c :: c in p ==> c == '?'
    ensures Matches(s, p, cs) <==> |s| == |p|
    decreases |p|
  {
    if p != [] {
      assert p[0] in p && forall c :: c in p[1..] ==> c in p;
      if s != [] { QuestionMarks(s[1..], p[1..], cs); }
    }
  }

  lemma FitsIs(w: char, c: char, cs: bool)
    ensures Fits(w, c, cs) <==> StandsFor(w, c, cs)
  {
  }

  /** A pattern without stars matches exactly the strings that agree with it place by place. */
  lemma {:induction false} MatchesPlain(s: string, p: string, cs: bool)
    requires '*' !in p
    ensures Matches(s, p, cs) <==> |s| == |p| && forall i :: 0 <= i < |p| ==> StandsFor(p[i], s[i], cs)
    decreases |p|
  {
    if p != [] && s != [] {
      FitsIs(p[0], s[0], cs);
      MatchesPlain(s[1..], p[1..], cs);
      if |s| == |p| {
        assert forall i :: 0 < i < |p| ==> p[i] == p[1..][i - 1] && s[i] == s[1..][i - 1];
        assert forall i :: 0 <= i < |p| - 1 ==> p[1..][i] == p[i + 1] && s[1..][i] == s[i + 1];
      }
    }
  }

  // ---------- why backtracking to the latest star is enough ----------

  /** A star that may start at `i` may also take everything up to a later start `k`. */
  lemma StarReaches(s: string, i: nat, k: nat, p: string, cs: bool)
    requires i <= k <= |s| && p != [] && p[0] == '*' && Matches(s[k..], p, cs)
    ensures Matches(s[i..], p, cs)
  {
    var n :| 0 <= n <= |s[k..]| && Matches(s[k..][n..], p[1..], cs);
    assert s[k..][n..] == s[i..][k - i + n..];
  }

  /** A run of plain pattern characters consumes exactly its own length. */
  lemma {:induction false} PlainConsumes(s: string, k: nat, p: string, m: nat, j: nat, cs: bool)
    requires k <= |s| && m <= j <= |p| && '*' !in p[m..j] && Matches(s[k..], p[m..], cs)
    ensures k + (j - m) <= |s| && Matches(s[k + (j - m)..], p[j..], cs)
    decreases j - m
  {
    if m < j {
      assert p[m..j][0] == p[m] && p[m..][0] == p[m] && p[m..][1..] == p[m + 1..];
      assert s[k..][1..] == s[k + 1..];
      assert forall c :: c in p[m + 1..j] ==> c in p[m..j];
      PlainConsumes(s, k + 1, p, m + 1, j, cs);
    }
  }

  /** `s` from `b` on matches a star followed by the pattern from `m` on. */
  ghost predicate FromStar(s: string, b: nat, p: string, m: nat, cs: bool)
    requires m <= |p|
  {
    exists k :: b <= k <= |s| && Matches(s[k..], p[m..], cs)
  }

  /** A later star takes over from an earlier one: no choice for the earlier one can do better. */
  lemma LatestStarSuffices(s: string, b: nat, i: nat, p: string, m: nat, j: nat, cs: bool)
    requires b <= i <= |s| && m <= j < |p| && i - b == j - m && '*' !in p[m..j] && p[j] == '*'
    requires Matches(s[b..], p[m..], cs) <==> Matches(s[i..], p[j..], cs)
    ensures FromStar(s, b, p, m, cs) <==> FromStar(s, i, p, j + 1, cs)
  {
    if FromStar(s, b, p, m, cs) {
      var k :| b <= k <= |s| && Matches(s[k..], p[m..], cs);
      PlainConsumes(s, k, p, m, j, cs);
      StarReaches(s, i, k + (j - m), p[j..], cs);
      var n :| 0 <= n <= |s[i..]| && Matches(s[i..][n..], p[j..][1..], cs);
      assert s[i..][n..] == s[i + n..] && p[j..][1..] == p[j + 1..];
    }
    if FromStar(s, i, p, j + 1, cs) {
      var k :| i <= k <= |s| && Matches(s[k..], p[j + 1..], cs);
      assert s[i..][k - i..] == s[k..] && p[j..][1..] == p[j + 1..];
      assert Matches(s[i..], p[j..], cs);
    }
  }

  /** When the text is used up, the current attempt is the last one that can succeed. */
  lemma LastAttempt(s: string, b: nat, p: string, m: nat, j: nat, cs: bool)
    requires b <= |s| && m <= j <= |p| && |s| - b == j - m && '*' !in p[m..j]
    requires Matches(s[b..], p[m..], cs) <==> Matches([], p[j..], cs)
    ensures FromStar(s, b, p, m, cs) <==> Matches([], p[j..], cs)
  {
    if FromStar(s, b, p, m, cs) {
      var k :| b <= k <= |s| && Matches(s[k..], p[m..], cs);
      PlainConsumes(s, k, p, m, j, cs);
    }
  }

  /** An attempt that fails leaves only later ones. */
  lemma NextAttempt(s: string, b: nat, p: string, m: nat, cs: bool)
    requires b < |s| && m <= |p| && !Matches(s[b..], p[m..], cs)
    ensures FromStar(s, b, p, m, cs) <==> FromStar(s, b + 1, p, m, cs)
  {
    if FromStar(s, b, p, m, cs) {
      var k :| b <= k <= |s| && Matches(s[k..], p[m..], cs);
      assert k != b;
    }
  }

  lemma StepBoth(s: string, i: nat, p: string, j: nat, cs: bool)
    requires i < |s| && j <= |p| && (j < |p| ==> p[j] != '*')
    ensures Matches(s[i..], p[j..], cs) <==> j < |p| && Fits(p[j], s[i], cs) && Matches(s[i + 1..], p[j + 1..], cs)
  {
    assert s[i..][1..] == s[i + 1..];
    if j < |p| { assert p[j..][1..] == p[j + 1..]; }
  }

  lemma AnyTail(s: string, i: nat, p: string, j: nat, cs: bool)
    requires i <= |s| && j + 1 == |p| && p[j] == '*'
    ensures Matches(s[i..], p[j..], cs)
  {
    assert p[j..][1..] == [] && s[i..][|s| - i..] == [];
  }

  /** The character of a C string at index `i`, or its terminator. */
  predicate At(s: string, i: nat, c: char) {
    i < |s| && s[i] == c
  }

  /**
   The attempt in progress: the star before `m` has taken everything up to `b`, the plain characters
   `p[m..j]` have consumed `s[b..i]`, and whether the attempt succeeds hangs on the rest.
   */
  ghost predicate Trying(s: string, b: nat, i: nat, p: string, m: nat, j: nat, cs: bool) {
    && b <= i <= |s| && m <= j <= |p| && i - b == j - m && '*' !in p[m..j]
    && (Matches(s[b..], p[m..], cs) <==> Matches(s[i..], p[j..], cs))
  }

  /** Right behind a star an attempt has consumed nothing yet. */
  lemma TryFirst(s: string, i: nat, p: string, m: nat, cs: bool)
    requires i <= |s| && m <= |p|
    ensures Trying(s, i, i, p, m, m, cs)
  {
  }

  lemma TryNext(s: string, b: nat, i: nat, p: string, m: nat, j: nat, cs: bool)
    requires Trying(s, b, i, p, m, j, cs) && i < |s| && j < |p| && p[j] != '*' && Fits(p[j], s[i], cs)
    ensures Trying(s, b, i + 1, p, m, j + 1, cs)
  {
    StepBoth(s, i, p, j, cs);
    assert p[m..j + 1] == p[m..j] + [p[j]];
  }

  lemma TryLater(s: string, b: nat, i: nat, p: string, m: nat, j: nat, cs: bool)
    requires Trying(s, b, i, p, m, j, cs) && i < |s| && (j < |p| ==> p[j] != '*' && !Fits(p[j], s[i], cs))
    ensures b < |s| && Trying(s, b + 1, b + 1, p, m, m, cs)
    ensures FromStar(s, b, p, m, cs) <==> FromStar(s, b + 1, p, m, cs)
  {
    StepBoth(s, i, p, j, cs);
    NextAttempt(s, b, p, m, cs);
  }

  lemma TryWins(s: string, b: nat, i: nat, p: string, m: nat, j: nat, cs: bool)
    requires Trying(s, b, i, p, m, j, cs) && Matches(s[i..], p[j..], cs)
    ensures FromStar(s, b, p, m, cs)
  {
  }

  /** The last loop: what is left of the pattern once the text is used up must be stars. */
  method OnlyStars(p: string, start: nat, cs: bool) returns (r: int)
    requires start <= |p|
    ensures r != 0 <==> Matches([], p[start..], cs)
  {
    var j := start;
    while At(p, j, '*')
      invariant start <= j <= |p|
      invariant Matches([], p[start..], cs) <==> Matches([], p[j..], cs)
      decreases |p| - j
    {
      assert p[j..][1..] == p[j + 1..] && ""[0..] == "";
      j := j + 1;
    }
    r := if j == |p| then 1 else 0;
    assert j < |p| ==> p[j..][0] == p[j];
  }

  method Wildcmp(s: string, p: string, caseSensitive: bool) returns (r: int)
    ensures r != 0 <==> Matches(s, p, caseSensitive)
  {
    var i, j := PlainPrefix(s, p, caseSensitive);
    if i < |s| && !At(p, j, '*') {
      return 0;
    }
    r := Backtrack(s, i, p, j, caseSensitive);
  }

  /** An attempt is in progress, and what is left of it and of later ones decides. */
  ghost predicate Open(s: string, b: nat, i: nat, p: string, m: nat, j: nat, cs: bool, answer: bool) {
    Trying(s, b, i, p, m, j, cs) && (answer <==> FromStar(s, b, p, m, cs))
  }

  lemma OpenFirst(s: string, i: nat, p: string, j: nat, cs: bool, answer: bool)
    requires i <= |s| && At(p, j, '*') && (answer <==> Matches(s[i..], p[j..], cs))
    ensures Open(s, i, i, p, j + 1, j + 1, cs, answer)
  {
    FirstStar(s, i, p, j, cs);
    TryFirst(s, i, p, j + 1, cs);
  }

  lemma OpenStar(s: string, b: nat, i: nat, p: string, m: nat, j: nat, cs: bool, answer: bool)
    requires Open(s, b, i, p, m, j, cs, answer) && At(p, j, '*')
    ensures Open(s, i, i, p, j + 1, j + 1, cs, answer)
  {
    LatestStarSuffices(s, b, i, p, m, j, cs);
    TryFirst(s, i, p, j + 1, cs);
  }

  lemma OpenWins(s: string, b: nat, i: nat, p: string, m: nat, j: nat, cs: bool, answer: bool)
    requires Open(s, b, i, p, m, j, cs, answer) && j + 1 == |p| && At(p, j, '*')
    ensures answer
  {
    AnyTail(s, i, p, j, cs);
    TryWins(s, b, i, p, m, j, cs);
  }

  lemma OpenNext(s: string, b: nat, i: nat, p: string, m: nat, j: nat, cs: bool, answer: bool)
    requires Open(s, b, i, p, m, j, cs, answer) && i < |s| && j < |p| && p[j] != '*' && Fits(p[j], s[i], cs)
    ensures Open(s, b, i + 1, p, m, j + 1, cs, answer)
  {
    TryNext(s, b, i, p, m, j, cs);
  }

  lemma OpenLater(s: string, b: nat, i: nat, p: string, m: nat, j: nat, cs: bool, answer: bool)
    requires Open(s, b, i, p, m, j, cs, answer) && i < |s| && (j < |p| ==> p[j] != '*' && !Fits(p[j], s[i], cs))
    ensures b < |s| && Open(s, b + 1, b + 1, p, m, m, cs, answer)
  {
    TryLater(s, b, i, p, m, j, cs);
  }

  /** The second loop, from a star or from the end of the text, and the third. */
  method Backtrack(s: string, start: nat, p: string, from: nat, cs: bool) returns (r: int)
    requires start <= |s| && from <= |p| && (start < |s| ==> At(p, from, '*'))
    ensures r != 0 <==> Matches(s[start..], p[from..], cs)
  {
    var i, j := start, from;
    var cp: nat, mp: nat := i, j;
    ghost var b: nat, starred := i, false;
    ghost var answer := Matches(s[start..], p[from..], cs);
    while i < |s|
      invariant i <= |s| && mp <= j <= |p| && b <= i
      invariant !starred ==> i == start && mp == j == from && b == i
      invariant starred ==> cp == b + 1 && Open(s, b, i, p, mp, j, cs, answer)
      decreases |p| - mp, |s| - b, |s| - i
    {
      if At(p, j, '*') {
        if j + 1 == |p| {
          AnyTail(s, i, p, j, cs);
          if starred { OpenWins(s, b, i, p, mp, j, cs, answer); }
          return 1;
        }
        if starred { OpenStar(s, b, i, p, mp, j, cs, answer); } else { OpenFirst(s, i, p, j, cs, answer); }
        j := j + 1;
        mp, cp := j, i + 1;
        b, starred := i, true;
      } else if j < |p| && Fits(p[j], s[i], cs) {
        OpenNext(s, b, i, p, mp, j, cs, answer);
        i, j := i + 1, j + 1;
      } else {
        OpenLater(s, b, i, p, mp, j, cs, answer);
        j := mp;
        i, cp := cp, cp + 1;
        b := b + 1;
      }
    }
    assert s[i..] == [];
    if starred { LastAttempt(s, b, p, mp, j, cs); }
    r := OnlyStars(p, j, cs);
  }

  lemma FirstStar(s: string, i: nat, p: string, j: nat, cs: bool)
    requires i <= |s| && At(p, j, '*')
    ensures Matches(s[i..], p[j..], cs) <==> FromStar(s, i, p, j + 1, cs)
  {
    assert p[j..][1..] == p[j + 1..];
    if Matches(s[i..], p[j..], cs) {
      var n :| 0 <= n <= |s[i..]| && Matches(s[i..][n..], p[j..][1..], cs);
      assert s[i..][n..] == s[i + n..];
    }
    if FromStar(s, i, p, j + 1, cs) {
      var k :| i <= k <= |s| && Matches(s[k..], p[j + 1..], cs);
      assert s[i..][k - i..] == s[k..];
    }
  }

  /** The first loop: walks both strings up to the first star, the end of the text, or a mismatch. */
  method PlainPrefix(s: string, p: string, cs: bool) returns (i: nat, j: nat)
    ensures i <= |s| && j <= |p|
    ensures i < |s| && !At(p, j, '*') ==> !Matches(s, p, cs)
    ensures Matches(s, p, cs) <==> Matches(s[i..], p[j..], cs)
  {
    i, j := 0, 0;
    while i < |s| && !At(p, j, '*')
      invariant i <= |s| && j <= |p|
      invariant Matches(s, p, cs) <==> Matches(s[i..], p[j..], cs)
    {
      StepBoth(s, i, p, j, cs);
      if j == |p| || !Fits(p[j], s[i], cs) {
        return;
      }
      i, j := i + 1, j + 1;
    }
  }
}
