/**
 * The two title patterns, `ESTIMATE_REGEX` = \(([?\d]+(?:\.\d+)?)\) and
 * `USED_REGEX` = \[([?\d]+(?:\.\d+)?)\], and what `String.prototype.match` returns for them.
 *
 * The regular expression is written as a leftmost scanner (`FirstMatch`) and proved equal to
 * its grammar (`MatchesAt`, `Leftmost`). The greedy run `[?\d]+` never needs to give anything
 * back: the character after it must be `.` or the closing delimiter, neither of which the run
 * can hold, so at each position there is at most one way to match.
 */
module TokenPattern {
  import opened Wrappers
  import opened Lexical

  /** The delimiters of one token kind; group 1 of the regular expression is what lies between. */
  datatype Pattern = Pattern(open: char, close: char)

  const ESTIMATE_PATTERN: Pattern := Pattern('(', ')')
  const USED_PATTERN: Pattern := Pattern('[', ']')

  /** A successful match: the index of the opening delimiter and the captured body. */
  datatype Match = Match(pos: nat, body: string)

  /** A character of the class `[?\d]`. */
  predicate IsBodyChar(c: char) {
    c == '?' || IsDigit(c)
  }

  /** Every character is one a body may hold. */
  predicate InBodyAlphabet(s: string) {
    forall k | 0 <= k < |s| :: IsBodyChar(s[k]) || s[k] == '.'
  }

  /** Neither delimiter can be confused with a body character. */
  predicate WellFormed(pat: Pattern) {
    !IsBodyChar(pat.open) && pat.open != '.' && !IsBodyChar(pat.close) && pat.close != '.'
  }

  /**
   * `b` has the shape `[?\d]+(\.\d+)?` with the integer run `b[..m]`; `m == |b|` when there is
   * no fraction.
   */
  ghost predicate BodySplit(b: string, m: nat) {
    0 < m <= |b|
    && (forall k | 0 <= k < m :: IsBodyChar(b[k]))
    && (m == |b| || (b[m] == '.' && m + 1 < |b| && forall k | m < k < |b| :: IsDigit(b[k])))
  }

  /** `b` is a word of the body grammar `[?\d]+(?:\.\d+)?`. */
  ghost predicate IsBody(b: string) {
    exists m: nat :: BodySplit(b, m)
  }

  /** The whole pattern matches `s` at index `p`, capturing `b`. */
  ghost predicate MatchesAt(s: string, pat: Pattern, p: nat, b: string) {
    p + |b| + 1 < |s|
    && s[p] == pat.open
    && s[p + 1..p + 1 + |b|] == b
    && IsBody(b)
    && s[p + 1 + |b|] == pat.close
  }

  /** The match at `p` is the one a regular-expression search reports: no match starts earlier. */
  ghost predicate Leftmost(s: string, pat: Pattern, p: nat, b: string) {
    MatchesAt(s, pat, p, b) && forall q: nat, b': string | q < p :: !MatchesAt(s, pat, q, b')
  }

  ghost predicate NoMatch(s: string, pat: Pattern) {
    forall q: nat, b: string :: !MatchesAt(s, pat, q, b)
  }

  /** The attempt to match at index `p`, with greedy runs. */
  function MatchAt(s: string, pat: Pattern, p: nat): (r: Option<string>)
    requires p < |s|
    ensures r.Some? ==> MatchesAt(s, pat, p, r.value) && InBodyAlphabet(r.value)
  {
    if s[p] != pat.open then None
    else
      var j := SkipWhile(s, p + 1, IsBodyChar);
      if j == p + 1 || j == |s| then None
      else if s[j] == pat.close then
        RunsMatch(s, pat, p, j, j);
        Some(s[p + 1..j])
      else if s[j] == '.' then
        var k := SkipWhile(s, j + 1, IsDigit);
        if k == j + 1 || k == |s| || s[k] != pat.close then None
        else
          RunsMatch(s, pat, p, j, k);
          Some(s[p + 1..k])
      else None
  }

  /**
   * The runs `MatchAt` scans from an opening delimiter, an integer run ending at `j` and an
   * optional fraction ending at `k`, followed by the closing delimiter, are a match.
   */
  lemma RunsMatch(s: string, pat: Pattern, p: nat, j: nat, k: nat)
    requires p < |s| && s[p] == pat.open
    requires j == SkipWhile(s, p + 1, IsBodyChar) && p + 1 < j <= k < |s| && s[k] == pat.close
    requires k == j || (s[j] == '.' && k == SkipWhile(s, j + 1, IsDigit) && j + 1 < k)
    ensures MatchesAt(s, pat, p, s[p + 1..k]) && InBodyAlphabet(s[p + 1..k])
  {
    var b := s[p + 1..k];
    SkipWhileRun(s, p + 1, IsBodyChar);
    if k > j {
      SkipWhileRun(s, j + 1, IsDigit);
    }
    SliceSplit(s, p + 1, k, j - p - 1);
    BodyAlphabet(b, j - p - 1);
    assert s[p + 1..p + 1 + |b|] == b;
  }

  /** Runs found in a string make its slice a body with the same split. */
  lemma SliceSplit(s: string, lo: nat, hi: nat, m: nat)
    requires 0 < m && lo + m <= hi <= |s|
    requires forall i | lo <= i < lo + m :: IsBodyChar(s[i])
    requires lo + m == hi || (s[lo + m] == '.' && lo + m + 1 < hi && forall i | lo + m < i < hi :: IsDigit(s[i]))
    ensures BodySplit(s[lo..hi], m)
  {
    var b := s[lo..hi];
    assert forall i | 0 <= i < |b| :: b[i] == s[lo + i];
  }

  /** Every word of the body grammar is made of digits, `?` and `.`. */
  lemma BodyAlphabet(b: string, m: nat)
    requires BodySplit(b, m)
    ensures InBodyAlphabet(b)
  {
    forall k | 0 <= k < |b|
      ensures IsBodyChar(b[k]) || b[k] == '.'
    {
      assert k < m || k == m || m < k;
    }
  }

  /** The leftmost match at or after index `i`. */
  function FirstMatchFrom(s: string, pat: Pattern, i: nat): (r: Option<Match>)
    requires i <= |s|
    ensures r.Some? ==> i <= r.value.pos && MatchesAt(s, pat, r.value.pos, r.value.body)
    ensures r.Some? ==> InBodyAlphabet(r.value.body)
    decreases |s| - i
  {
    if i == |s| then None
    else
      match MatchAt(s, pat, i)
      case Some(b) => Some(Match(i, b))
      case None => FirstMatchFrom(s, pat, i + 1)
  }

  /** `s.match(regex)`: `None` is `null`, otherwise the index and group 1 of the first match. */
  function FirstMatch(s: string, pat: Pattern): (r: Option<Match>)
    ensures r.Some? ==> MatchesAt(s, pat, r.value.pos, r.value.body) && InBodyAlphabet(r.value.body)
  {
    FirstMatchFrom(s, pat, 0)
  }

  /** The body of a match is determined by where it starts: it ends at the next closing delimiter. */
  lemma MatchUnique(s: string, pat: Pattern, p: nat, b1: string, b2: string)
    requires WellFormed(pat)
    requires MatchesAt(s, pat, p, b1) && MatchesAt(s, pat, p, b2)
    ensures b1 == b2
  {
    if |b1| < |b2| {
      assert s[p + 1 + |b1|] == b2[|b1|];
      BodyHasNoDelimiter(b2, pat.close, |b1|);
    } else if |b2| < |b1| {
      assert s[p + 1 + |b2|] == b1[|b2|];
      BodyHasNoDelimiter(b1, pat.close, |b2|);
    }
  }

  /** A body holds only `?`, digits and `.`: never a delimiter. */
  lemma BodyHasNoDelimiter(b: string, c: char, k: nat)
    requires IsBody(b) && k < |b|
    requires !IsBodyChar(c) && c != '.'
    ensures b[k] != c
  {
    var m: nat :| BodySplit(b, m);
    assert k < m || k == m || m < k;
  }

  /** The scanner at one position agrees with the grammar, in both directions. */
  lemma MatchAtCorrect(s: string, pat: Pattern, p: nat, b: string)
    requires WellFormed(pat) && p < |s|
    ensures MatchAt(s, pat, p) == Some(b) <==> MatchesAt(s, pat, p, b)
  {
    if MatchesAt(s, pat, p, b) {
      var m: nat :| BodySplit(b, m);
      var e := p + 1 + m;
      assert forall k | p + 1 <= k < e :: s[k] == b[k - p - 1];
      assert s[e] == (if m == |b| then pat.close else '.');
      assert SkipWhile(s, p + 1, IsBodyChar) == e by {
        SkipWhileStops(s, p + 1, IsBodyChar, e);
      }
      if m < |b| {
        var f := p + 1 + |b|;
        assert forall k | e + 1 <= k < f :: s[k] == b[k - p - 1];
        SkipWhileStops(s, e + 1, IsDigit, f);
      }
    }
  }

  /** The scanner from `i` finds a match exactly when the grammar has one at or after `i`. */
  lemma {:induction false} FirstMatchFromComplete(s: string, pat: Pattern, i: nat, q: nat, b: string)
    requires WellFormed(pat) && i <= q
    requires MatchesAt(s, pat, q, b)
    ensures FirstMatchFrom(s, pat, i).Some? && FirstMatchFrom(s, pat, i).value.pos <= q
    decreases |s| - i
  {
    if i < q {
      if MatchAt(s, pat, i).None? {
        FirstMatchFromComplete(s, pat, i + 1, q, b);
      }
    } else {
      MatchAtCorrect(s, pat, q, b);
    }
  }

  /** `FirstMatch` reports the leftmost match of the grammar, and `null` exactly when there is none. */
  lemma FirstMatchIsLeftmost(s: string, pat: Pattern, p: nat, b: string)
    requires WellFormed(pat)
    ensures FirstMatch(s, pat) == Some(Match(p, b)) <==> Leftmost(s, pat, p, b)
  {
    if FirstMatch(s, pat) == Some(Match(p, b)) {
      forall q: nat, b': string | q < p
        ensures !MatchesAt(s, pat, q, b')
      {
        if MatchesAt(s, pat, q, b') {
          FirstMatchFromComplete(s, pat, 0, q, b');
        }
      }
    }
    if Leftmost(s, pat, p, b) {
      FirstMatchFromComplete(s, pat, 0, p, b);
      var m := FirstMatch(s, pat).value;
      MatchUnique(s, pat, p, m.body, b);
    }
  }

  lemma FirstMatchNone(s: string, pat: Pattern)
    requires WellFormed(pat)
    ensures FirstMatch(s, pat) == None <==> NoMatch(s, pat)
  {
    if !NoMatch(s, pat) {
      var q: nat, b: string :| MatchesAt(s, pat, q, b);
      FirstMatchFromComplete(s, pat, 0, q, b);
    }
  }

  /**
   * Text appended after a title never changes the first match it already has: in particular a
   * used token added after an estimate token leaves the estimate where it was.
   */
  lemma FirstMatchAppend(s: string, u: string, pat: Pattern)
    requires WellFormed(pat) && FirstMatch(s, pat).Some?
    ensures FirstMatch(s + u, pat) == FirstMatch(s, pat)
  {
    var m := FirstMatch(s, pat).value;
    FirstMatchIsLeftmost(s, pat, m.pos, m.body);
    var t := s + u;
    assert MatchesAt(t, pat, m.pos, m.body) by {
      assert t[m.pos + 1..m.pos + 1 + |m.body|] == s[m.pos + 1..m.pos + 1 + |m.body|];
    }
    forall q: nat, b: string | q < m.pos
      ensures !MatchesAt(t, pat, q, b)
    {
      if MatchesAt(t, pat, q, b) {
        // The body holds no opening delimiter, and `s` has one at `m.pos`, so this match ends
        // inside `s` and would already be a match of `s`.
        if m.pos <= q + |b| {
          var k: nat := m.pos - q - 1;
          BodyHasNoDelimiter(b, pat.open, k);
          assert false;
        }
        assert s[q + 1..q + 1 + |b|] == t[q + 1..q + 1 + |b|];
        assert MatchesAt(s, pat, q, b);
      }
    }
    FirstMatchIsLeftmost(t, pat, m.pos, m.body);
  }

  /** A stretch without an opening delimiter holds no match: the search moves past it. */
  lemma {:induction false} FirstMatchSkips(s: string, pat: Pattern, i: nat, p: nat)
    requires i <= p <= |s|
    requires pat.open !in s[i..p]
    ensures FirstMatchFrom(s, pat, i) == FirstMatchFrom(s, pat, p)
    decreases p - i
  {
    if i < p {
      assert s[i] == s[i..p][0];
      assert s[i + 1..p] == s[i..p][1..];
      FirstMatchSkips(s, pat, i + 1, p);
    }
  }

  /** A match preceded by no opening delimiter is the first match. */
  lemma FirstOpenMatches(s: string, pat: Pattern, p: nat, b: string)
    requires WellFormed(pat) && MatchesAt(s, pat, p, b)
    requires pat.open !in s[..p]
    ensures FirstMatch(s, pat) == Some(Match(p, b))
  {
    FirstMatchSkips(s, pat, 0, p);
    MatchAtCorrect(s, pat, p, b);
  }
}
