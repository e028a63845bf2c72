/**
 * `parseStoryPoints`: a card title to its estimate and used points, or `null` when the title
 * carries neither token. The JavaScript values a field can hold are a number, the string '?'
 * or NaN; numbers are exact reals here.
 */
module StoryPoints {
  import opened Wrappers
  import opened Lexical
  import opened TokenPattern

  /** What `estimate` or `used` holds: a number, the marker '?', or NaN. */
  datatype PointValue = Num(r: real) | Unknown | NaN

  /** The object `{ estimate, used }`. */
  datatype Points = Points(estimate: PointValue, used: PointValue)

  predicate NonNegative(p: Points) {
    (p.estimate.Num? ==> p.estimate.r >= 0.0) && (p.used.Num? ==> p.used.r >= 0.0)
  }

  /**
   * `parseFloat` on a string over digits, `?` and `.` (every body is one): the longest prefix
   * that is a decimal literal, or NaN when no prefix is.
   */
  function ParseFloat(s: string): (v: PointValue)
    requires InBodyAlphabet(s)
    ensures v != Unknown
    ensures v.Num? ==> v.r >= 0.0
    ensures v == NaN <==> !(|s| > 0 && IsDigit(s[0])) && !(|s| > 1 && s[0] == '.' && IsDigit(s[1]))
  {
    if |s| > 0 && IsDigit(s[0]) then
      var d := SkipWhile(s, 0, IsDigit);
      SkipWhileRun(s, 0, IsDigit);
      var whole := DigitsValue(s[..d]) as real;
      if d < |s| && s[d] == '.' then
        var f := SkipWhile(s, d + 1, IsDigit);
        SkipWhileRun(s, d + 1, IsDigit);
        Num(whole + FractionValue(s[d + 1..f]))
      else Num(whole)
    else if |s| > 1 && s[0] == '.' && IsDigit(s[1]) then
      SkipWhileRun(s, 1, IsDigit);
      Num(FractionValue(s[1..SkipWhile(s, 1, IsDigit)]))
    else NaN
  }

  /** A matched body: exactly "?" is the marker, anything else goes through `parseFloat`. */
  function Classify(body: string): (v: PointValue)
    requires InBodyAlphabet(body)
    ensures v == Unknown <==> body == "?"
    ensures v.Num? ==> v.r >= 0.0
  {
    if body == "?" then Unknown else ParseFloat(body)
  }

  /** A field whose token is absent keeps the default `0`. */
  function FieldOf(m: Option<Match>): (v: PointValue)
    requires m.Some? ==> InBodyAlphabet(m.value.body)
    ensures m.None? ==> v == Num(0.0)
    ensures v == Unknown <==> m.Some? && m.value.body == "?"
    ensures v.Num? ==> v.r >= 0.0
  {
    match m
    case None => Num(0.0)
    case Some(mt) => Classify(mt.body)
  }

  /** Neither pattern admits a sign, so every number a title yields is at least 0. */
  function ParseStoryPoints(title: string): (r: Option<Points>)
    ensures r.Some? ==> NonNegative(r.value)
  {
    var estimateMatch := FirstMatch(title, ESTIMATE_PATTERN);
    var usedMatch := FirstMatch(title, USED_PATTERN);
    if estimateMatch.None? && usedMatch.None? then None
    else Some(Points(FieldOf(estimateMatch), FieldOf(usedMatch)))
  }

  // ----- Body classification -----

  /** A body other than "?" is NaN exactly when it starts with `?`. */
  lemma ClassifyNaN(b: string, m: nat)
    requires BodySplit(b, m) && b != "?"
    ensures InBodyAlphabet(b)
    ensures Classify(b) == NaN <==> b[0] == '?'
  {
    BodyAlphabet(b, m);
  }

  /** An integer run of digits only is read whole, with its fraction if there is one. */
  lemma ClassifyWhole(b: string, m: nat)
    requires BodySplit(b, m) && AllDigits(b[..m])
    ensures InBodyAlphabet(b)
    ensures Classify(b)
         == Num(DigitsValue(b[..m]) as real + (if m == |b| then 0.0 else FractionValue(b[m + 1..])))
  {
    BodyAlphabet(b, m);
    assert b != "?" by {
      assert IsDigit(b[..m][0]);
    }
    SkipWhileStops(b, 0, IsDigit, m);
    if m < |b| {
      SkipWhileStops(b, m + 1, IsDigit, |b|);
      assert FractionValue(b[m + 1..|b|]) == FractionValue(b[m + 1..]) by {
        assert b[m + 1..|b|] == b[m + 1..];
      }
    }
  }

  /**
   * An integer run that holds a `?` after some leading digits is cut at the `?`, and its
   * fraction is never read: "5?" is 5 and "1?2.5" is 1.
   */
  lemma ClassifyCut(b: string, m: nat, d: nat)
    requires BodySplit(b, m) && 0 < d < m
    requires AllDigits(b[..d]) && b[d] == '?'
    ensures InBodyAlphabet(b)
    ensures Classify(b) == Num(DigitsValue(b[..d]) as real)
  {
    BodyAlphabet(b, m);
    assert b != "?" by {
      assert IsDigit(b[..d][0]);
    }
    SkipWhileStops(b, 0, IsDigit, d);
  }

  // ----- The parse as a whole -----

  /** `null` exactly when neither pattern matches anywhere in the title. */
  lemma ParseNullIff(title: string)
    ensures ParseStoryPoints(title) == None
        <==> NoMatch(title, ESTIMATE_PATTERN) && NoMatch(title, USED_PATTERN)
  {
    FirstMatchNone(title, ESTIMATE_PATTERN);
    FirstMatchNone(title, USED_PATTERN);
  }

  /** The estimate is the classified body of the leftmost estimate token, whatever else the title holds. */
  lemma EstimateIsLeftmostToken(title: string, p: nat, b: string)
    requires Leftmost(title, ESTIMATE_PATTERN, p, b)
    ensures InBodyAlphabet(b)
    ensures ParseStoryPoints(title).Some? && ParseStoryPoints(title).value.estimate == Classify(b)
  {
    FirstMatchIsLeftmost(title, ESTIMATE_PATTERN, p, b);
  }

  /** The used points are the classified body of the leftmost used token, whatever else the title holds. */
  lemma UsedIsLeftmostToken(title: string, p: nat, b: string)
    requires Leftmost(title, USED_PATTERN, p, b)
    ensures InBodyAlphabet(b)
    ensures ParseStoryPoints(title).Some? && ParseStoryPoints(title).value.used == Classify(b)
  {
    FirstMatchIsLeftmost(title, USED_PATTERN, p, b);
  }

  /** A field whose token is absent reads `0`, the same as an explicit `(0)` or `[0]`. */
  lemma AbsentIsZero(title: string)
    requires ParseStoryPoints(title).Some?
    ensures NoMatch(title, ESTIMATE_PATTERN) ==> ParseStoryPoints(title).value.estimate == Num(0.0)
    ensures NoMatch(title, USED_PATTERN) ==> ParseStoryPoints(title).value.used == Num(0.0)
  {
    FirstMatchNone(title, ESTIMATE_PATTERN);
    FirstMatchNone(title, USED_PATTERN);
  }

  /** Text after a title's estimate token, a used token included, leaves the estimate as it was. */
  lemma EstimateIgnoresAppendedText(title: string, suffix: string)
    requires FirstMatch(title, ESTIMATE_PATTERN).Some?
    ensures ParseStoryPoints(title).Some? && ParseStoryPoints(title + suffix).Some?
    ensures ParseStoryPoints(title + suffix).value.estimate == ParseStoryPoints(title).value.estimate
  {
    FirstMatchAppend(title, suffix, ESTIMATE_PATTERN);
  }

  /** Text after a title's used token, an estimate token included, leaves the used points as they were. */
  lemma UsedIgnoresAppendedText(title: string, suffix: string)
    requires FirstMatch(title, USED_PATTERN).Some?
    ensures ParseStoryPoints(title).Some? && ParseStoryPoints(title + suffix).Some?
    ensures ParseStoryPoints(title + suffix).value.used == ParseStoryPoints(title).value.used
  {
    FirstMatchAppend(title, suffix, USED_PATTERN);
  }

  // ----- Worked titles -----

  lemma ExampleNoTokens()
    ensures ParseStoryPoints("Fix bug") == None
  {
    var t := "Fix bug";
    FirstMatchSkips(t, ESTIMATE_PATTERN, 0, |t|);
    FirstMatchSkips(t, USED_PATTERN, 0, |t|);
  }

  lemma ExampleEstimateOnly()
    ensures ParseStoryPoints("(5) Fix bug") == Some(Points(Num(5.0), Num(0.0)))
  {
    var t := "(5) Fix bug";
    assert BodySplit("5", 1);
    FirstOpenMatches(t, ESTIMATE_PATTERN, 0, "5");
    FirstMatchSkips(t, USED_PATTERN, 0, |t|);
    ClassifyWhole("5", 1);
  }

  lemma ExampleBothTokens()
    ensures ParseStoryPoints("(5) Fix [3]") == Some(Points(Num(5.0), Num(3.0)))
  {
    BothTokensMatches();
    ClassifyWhole("5", 1);
    ClassifyWhole("3", 1);
    assert "5"[..1] == "5" && "3"[..1] == "3";
  }

  /** Where the two tokens of "(5) Fix [3]" are. */
  lemma BothTokensMatches()
    ensures FirstMatch("(5) Fix [3]", ESTIMATE_PATTERN) == Some(Match(0, "5"))
    ensures FirstMatch("(5) Fix [3]", USED_PATTERN) == Some(Match(8, "3"))
  {
    var t := "(5) Fix [3]";
    assert BodySplit("5", 1) && BodySplit("3", 1);
    FirstOpenMatches(t, ESTIMATE_PATTERN, 0, "5");
    FirstMatchSkips(t, USED_PATTERN, 0, 8);
    MatchAtCorrect(t, USED_PATTERN, 8, "3");
  }

  lemma ExampleBothUnknown()
    ensures ParseStoryPoints("(?) Spike [?]") == Some(Points(Unknown, Unknown))
  {
    var t := "(?) Spike [?]";
    assert BodySplit("?", 1);
    assert t[1..2] == "?" && t[11..12] == "?";
    FirstOpenMatches(t, ESTIMATE_PATTERN, 0, "?");
    assert forall k | 0 <= k < 10 :: t[k] != '[';
    FirstOpenMatches(t, USED_PATTERN, 10, "?");
  }

  /** An explicit `[0]` gives 0, like the absent used token of `ExampleAbsentZero`. */
  lemma ExampleExplicitZero()
    ensures ParseStoryPoints("(0) Done [0]") == Some(Points(Num(0.0), Num(0.0)))
  {
    ExplicitZeroMatches();
    ClassifyWhole("0", 1);
    assert "0"[..1] == "0";
  }

  /** Where the two tokens of "(0) Done [0]" are. */
  lemma ExplicitZeroMatches()
    ensures FirstMatch("(0) Done [0]", ESTIMATE_PATTERN) == Some(Match(0, "0"))
    ensures FirstMatch("(0) Done [0]", USED_PATTERN) == Some(Match(9, "0"))
  {
    var t := "(0) Done [0]";
    assert BodySplit("0", 1);
    FirstOpenMatches(t, ESTIMATE_PATTERN, 0, "0");
    FirstMatchSkips(t, USED_PATTERN, 0, 9);
    MatchAtCorrect(t, USED_PATTERN, 9, "0");
  }

  lemma ExampleAbsentZero()
    ensures ParseStoryPoints("(0) Done") == Some(Points(Num(0.0), Num(0.0)))
  {
    var t := "(0) Done";
    assert BodySplit("0", 1);
    FirstOpenMatches(t, ESTIMATE_PATTERN, 0, "0");
    FirstMatchSkips(t, USED_PATTERN, 0, |t|);
    ClassifyWhole("0", 1);
  }

  lemma ExampleFraction()
    ensures ParseStoryPoints("(2.5)") == Some(Points(Num(2.5), Num(0.0)))
  {
    FractionMatches();
    assert BodySplit("2.5", 1);
    assert "2.5"[..1] == "2" && "2.5"[2..] == "5";
    assert DigitsValue("2") == 2 && FractionValue("5") == 0.5;
    ClassifyWhole("2.5", 1);
  }

  /** The one token of "(2.5)". */
  lemma FractionMatches()
    ensures FirstMatch("(2.5)", ESTIMATE_PATTERN) == Some(Match(0, "2.5"))
    ensures FirstMatch("(2.5)", USED_PATTERN) == None
  {
    var t := "(2.5)";
    assert BodySplit("2.5", 1);
    FirstOpenMatches(t, ESTIMATE_PATTERN, 0, "2.5");
    FirstMatchSkips(t, USED_PATTERN, 0, |t|);
  }

  /** "5?" reads as 5, while "?5" is NaN. */
  lemma ExampleMixedMarks()
    ensures ParseStoryPoints("(5?) [?5]") == Some(Points(Num(5.0), NaN))
  {
    MixedMarksMatches();
    assert BodySplit("5?", 2) && BodySplit("?5", 2);
    ClassifyCut("5?", 2, 1);
    assert "5?"[..1] == "5";
    ClassifyNaN("?5", 2);
  }

  /** Where the two tokens of "(5?) [?5]" are. */
  lemma MixedMarksMatches()
    ensures FirstMatch("(5?) [?5]", ESTIMATE_PATTERN) == Some(Match(0, "5?"))
    ensures FirstMatch("(5?) [?5]", USED_PATTERN) == Some(Match(5, "?5"))
  {
    var t := "(5?) [?5]";
    assert BodySplit("5?", 2) && BodySplit("?5", 2);
    FirstOpenMatches(t, ESTIMATE_PATTERN, 0, "5?");
    FirstOpenMatches(t, USED_PATTERN, 5, "?5");
  }

  /** The fraction of "1?2.5" is never read: the value is 1. */
  lemma ExampleCutFraction()
    ensures ParseStoryPoints("(1?2.5)") == Some(Points(Num(1.0), Num(0.0)))
  {
    CutFractionMatches();
    assert BodySplit("1?2.5", 3);
    ClassifyCut("1?2.5", 3, 1);
    assert "1?2.5"[..1] == "1";
  }

  /** The one token of "(1?2.5)". */
  lemma CutFractionMatches()
    ensures FirstMatch("(1?2.5)", ESTIMATE_PATTERN) == Some(Match(0, "1?2.5"))
    ensures FirstMatch("(1?2.5)", USED_PATTERN) == None
  {
    var t := "(1?2.5)";
    assert t[1..6] == "1?2.5";
    assert BodySplit("1?2.5", 3);
    FirstOpenMatches(t, ESTIMATE_PATTERN, 0, "1?2.5");
    FirstMatchSkips(t, USED_PATTERN, 0, |t|);
  }

  /** A used token's brackets around an estimate token: only the estimate matches. */
  lemma ExampleNested()
    ensures ParseStoryPoints("[(3)]") == Some(Points(Num(3.0), Num(0.0)))
  {
    var t := "[(3)]";
    assert BodySplit("3", 1);
    FirstOpenMatches(t, ESTIMATE_PATTERN, 1, "3");
    SkipWhileStops(t, 1, IsBodyChar, 1);
    assert MatchAt(t, USED_PATTERN, 0) == None;
    FirstMatchSkips(t, USED_PATTERN, 1, |t|);
    ClassifyWhole("3", 1);
  }

  /** A parenthesis that does not start a token is passed over. */
  lemma ExampleSkipsNonToken()
    ensures ParseStoryPoints("(x) (4)") == Some(Points(Num(4.0), Num(0.0)))
  {
    var t := "(x) (4)";
    assert BodySplit("4", 1);
    SkipWhileStops(t, 1, IsBodyChar, 1);
    assert MatchAt(t, ESTIMATE_PATTERN, 0) == None;
    FirstMatchSkips(t, ESTIMATE_PATTERN, 1, 4);
    MatchAtCorrect(t, ESTIMATE_PATTERN, 4, "4");
    FirstMatchSkips(t, USED_PATTERN, 0, |t|);
    ClassifyWhole("4", 1);
  }

  /** The three cards of a list whose totals are worked out in `ListTotals.ExampleTally`. */
  lemma ExampleCardA()
    ensures ParseStoryPoints("(3) A") == Some(Points(Num(3.0), Num(0.0)))
  {
    var t := "(3) A";
    assert BodySplit("3", 1);
    FirstOpenMatches(t, ESTIMATE_PATTERN, 0, "3");
    FirstMatchSkips(t, USED_PATTERN, 0, |t|);
    ClassifyWhole("3", 1);
  }

  lemma ExampleCardB()
    ensures ParseStoryPoints("(?) B [2]") == Some(Points(Unknown, Num(2.0)))
  {
    CardBMatches();
    assert BodySplit("2", 1);
    ClassifyWhole("2", 1);
    assert "2"[..1] == "2";
  }

  /** Where the two tokens of "(?) B [2]" are. */
  lemma CardBMatches()
    ensures FirstMatch("(?) B [2]", ESTIMATE_PATTERN) == Some(Match(0, "?"))
    ensures FirstMatch("(?) B [2]", USED_PATTERN) == Some(Match(6, "2"))
  {
    var t := "(?) B [2]";
    assert BodySplit("?", 1) && BodySplit("2", 1);
    FirstOpenMatches(t, ESTIMATE_PATTERN, 0, "?");
    FirstMatchSkips(t, USED_PATTERN, 0, 6);
    MatchAtCorrect(t, USED_PATTERN, 6, "2");
  }

  lemma ExampleCardC()
    ensures ParseStoryPoints("(5) C [5]") == Some(Points(Num(5.0), Num(5.0)))
  {
    CardCMatches();
    assert BodySplit("5", 1);
    ClassifyWhole("5", 1);
    assert "5"[..1] == "5";
  }

  /** Where the two tokens of "(5) C [5]" are. */
  lemma CardCMatches()
    ensures FirstMatch("(5) C [5]", ESTIMATE_PATTERN) == Some(Match(0, "5"))
    ensures FirstMatch("(5) C [5]", USED_PATTERN) == Some(Match(6, "5"))
  {
    var t := "(5) C [5]";
    assert BodySplit("5", 1);
    FirstOpenMatches(t, ESTIMATE_PATTERN, 0, "5");
    FirstMatchSkips(t, USED_PATTERN, 0, 6);
    MatchAtCorrect(t, USED_PATTERN, 6, "5");
  }
}
