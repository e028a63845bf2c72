/**
 * The reduction in `updateListTotals`: every card title of one list is parsed, pointed titles
 * are counted, and the numeric estimate and used values are summed; the two header labels are
 * shown only when some title carried points.
 *
 * The reduction is stated over what the titles parse to (`ParseAll`), so that its algebra is
 * proved once, independently of the parser.
 */
module ListTotals {
  import opened Wrappers
  import opened StoryPoints

  /** The accumulators `totalEstimate`, `totalUsed` and `cardCount`. */
  datatype Totals = Totals(estimate: real, used: real, cardCount: nat)

  /** The labels appended to the list header, in order: `Est: …` then `Used: …`. */
  datatype TotalLabel = EstimateTotal(total: real) | UsedTotal(total: real)

  const NO_TOTALS: Totals := Totals(0.0, 0.0, 0)

  /** The guard in front of each `+=`: `0`, `'?'` and NaN are not added. */
  predicate Counted(v: PointValue)
    ensures Counted(v) <==> v.Num? && v.r != 0.0
  {
    v != Num(0.0) && v != Unknown && !v.NaN?
  }

  /** What a field adds to its total (leaving out `0` does not change a sum). */
  function Contribution(v: PointValue): (r: real)
    ensures r == (if v.Num? then v.r else 0.0)
  {
    if Counted(v) then v.r else 0.0
  }

  function Plus(a: Totals, b: Totals): Totals {
    Totals(a.estimate + b.estimate, a.used + b.used, a.cardCount + b.cardCount)
  }

  /** One step of the `forEach` callback, given what the card's title parsed to. */
  function Accumulate(t: Totals, points: Option<Points>): (r: Totals)
    ensures points.None? ==> r == t
    ensures r.cardCount == t.cardCount + (if points.Some? then 1 else 0)
    ensures points.Some? && points.value.estimate.Num? ==> r.estimate == t.estimate + points.value.estimate.r
    ensures points.Some? && !points.value.estimate.Num? ==> r.estimate == t.estimate
    ensures points.Some? && points.value.used.Num? ==> r.used == t.used + points.value.used.r
    ensures points.Some? && !points.value.used.Num? ==> r.used == t.used
  {
    match points
    case None => t
    case Some(p) =>
      Totals(t.estimate + Contribution(p.estimate), t.used + Contribution(p.used), t.cardCount + 1)
  }

  /** What each title of a list parses to, in order. */
  function ParseAll(titles: seq<string>): (parsed: seq<Option<Points>>)
    ensures |parsed| == |titles|
    ensures forall i | 0 <= i < |titles| :: parsed[i] == ParseStoryPoints(titles[i])
  {
    seq(|titles|, i requires 0 <= i < |titles| => ParseStoryPoints(titles[i]))
  }

  /** The totals after the callback has run over the parsed titles in order. */
  function Tally(parsed: seq<Option<Points>>): (t: Totals)
    ensures t.cardCount <= |parsed|
  {
    if parsed == [] then NO_TOTALS
    else Accumulate(Tally(parsed[..|parsed| - 1]), parsed[|parsed| - 1])
  }

  /** The labels the header receives for given totals. */
  function HeaderLabels(t: Totals): (labels: seq<TotalLabel>)
    ensures |labels| == (if t.cardCount > 0 then 2 else 0)
    ensures labels != [] ==> labels[0] == EstimateTotal(t.estimate) && labels[1] == UsedTotal(t.used)
  {
    if t.cardCount > 0 then [EstimateTotal(t.estimate), UsedTotal(t.used)] else []
  }

  /** The aggregation loop and the display rule of `updateListTotals`. */
  method UpdateListTotals(titles: seq<string>) returns (totals: Totals, labels: seq<TotalLabel>)
    ensures totals == Tally(ParseAll(titles))
    ensures labels == [] <==> totals.cardCount == 0
    ensures labels != [] ==> labels == [EstimateTotal(totals.estimate), UsedTotal(totals.used)]
    ensures labels == HeaderLabels(totals)
  {
    ghost var parsed := ParseAll(titles);
    var totalEstimate: real := 0.0;
    var totalUsed: real := 0.0;
    var cardCount: nat := 0;
    var i := 0;
    while i < |titles|
      invariant 0 <= i <= |titles|
      invariant Totals(totalEstimate, totalUsed, cardCount) == Tally(parsed[..i])
    {
      var points := ParseStoryPoints(titles[i]);
      assert parsed[i] == points;
      TallyStep(parsed, i);
      totalEstimate, totalUsed, cardCount := AddCard(totalEstimate, totalUsed, cardCount, points);
      i := i + 1;
    }
    assert parsed[..i] == parsed;
    totals := Totals(totalEstimate, totalUsed, cardCount);
    labels := [];
    if cardCount > 0 {
      labels := labels + [EstimateTotal(totalEstimate)];
      labels := labels + [UsedTotal(totalUsed)];
    }
  }

  /**
   * The body of the `forEach` callback once the title is parsed: each field is added when it
   * passes its guard, and a non-null result counts the card.
   */
  method AddCard(totalEstimate: real, totalUsed: real, cardCount: nat, points: Option<Points>)
    returns (estimate': real, used': real, cardCount': nat)
    ensures Totals(estimate', used', cardCount') == Accumulate(Totals(totalEstimate, totalUsed, cardCount), points)
  {
    estimate', used', cardCount' := totalEstimate, totalUsed, cardCount;
    if points.Some? {
      var p := points.value;
      if Counted(p.estimate) {
        estimate' := estimate' + p.estimate.r;
      }
      if Counted(p.used) {
        used' := used' + p.used.r;
      }
      cardCount' := cardCount' + 1;
    }
  }

  /** The totals of one more card are one more callback step. */
  lemma TallyStep(parsed: seq<Option<Points>>, i: nat)
    requires i < |parsed|
    ensures Tally(parsed[..i + 1]) == Accumulate(Tally(parsed[..i]), parsed[i])
  {
    assert parsed[..i + 1][..i] == parsed[..i];
  }

  // ----- Properties of the reduction -----

  /** The totals of a concatenation are the sums of the totals of its parts. */
  lemma {:induction false} TallyAppend(a: seq<Option<Points>>, b: seq<Option<Points>>)
    ensures Tally(a + b) == Plus(Tally(a), Tally(b))
    decreases |b|
  {
    if b == [] {
      assert a + b == a;
    } else {
      var b', last := b[..|b| - 1], b[|b| - 1];
      var ab := a + b;
      assert ab[..|ab| - 1] == a + b';
      assert ab[|ab| - 1] == last;
      TallyAppend(a, b');
      AccumulateShift(Tally(a), Tally(b'), last);
    }
  }

  /** One callback step commutes with adding totals gathered before it. */
  lemma AccumulateShift(u: Totals, v: Totals, points: Option<Points>)
    ensures Accumulate(Plus(u, v), points) == Plus(u, Accumulate(v, points))
  {
    match points
    case None =>
    case Some(p) =>
  }

  /** The totals do not depend on the order of the cards. */
  lemma {:induction false} TallyPermutation(a: seq<Option<Points>>, b: seq<Option<Points>>)
    requires multiset(a) == multiset(b)
    ensures Tally(a) == Tally(b)
    decreases |a|
  {
    if a == [] {
      assert |b| == |multiset(b)| == 0;
    } else {
      var last := a[|a| - 1];
      var a' := a[..|a| - 1];
      assert last in multiset(b) by {
        assert last in a;
      }
      var j :| 0 <= j < |b| && b[j] == last;
      var b' := b[..j] + b[j + 1..];
      assert multiset(a') == multiset(a) - multiset{last} by {
        assert a == a' + [last];
      }
      MultisetRemove(b, j);
      TallyPermutation(a', b');
      assert a[..|a| - 1] == a';
      TallyRemove(b, j);
    }
  }

  lemma MultisetRemove<T>(s: seq<T>, j: nat)
    requires j < |s|
    ensures multiset(s[..j] + s[j + 1..]) == multiset(s) - multiset{s[j]}
  {
    assert s == s[..j] + [s[j]] + s[j + 1..];
  }

  /** The totals of a sequence are those of the sequence without one card, and then that card. */
  lemma TallyRemove(s: seq<Option<Points>>, j: nat)
    requires j < |s|
    ensures Tally(s) == Accumulate(Tally(s[..j] + s[j + 1..]), s[j])
  {
    var front, rest := s[..j], s[j + 1..];
    assert s == s[..j + 1] + rest;
    TallyAppend(s[..j + 1], rest);
    TallyStep(s, j);
    TallyAppend(front, rest);
    AccumulateSwap(Tally(front), Tally(rest), s[j]);
  }

  /** A callback step can be taken before or after adding totals gathered later. */
  lemma AccumulateSwap(u: Totals, r: Totals, points: Option<Points>)
    ensures Plus(Accumulate(u, points), r) == Accumulate(Plus(u, r), points)
  {
    match points
    case None =>
    case Some(p) =>
  }

  /** Parsing a list of titles parses each title on its own. */
  lemma ParseAllAppend(a: seq<string>, b: seq<string>)
    ensures ParseAll(a + b) == ParseAll(a) + ParseAll(b)
  {
    var ab := a + b;
    assert forall i | 0 <= i < |ab| :: ab[i] == if i < |a| then a[i] else b[i - |a|];
  }

  /** Reordering the titles reorders what they parse to. */
  lemma {:induction false} ParseAllPermutation(a: seq<string>, b: seq<string>)
    requires multiset(a) == multiset(b)
    ensures multiset(ParseAll(a)) == multiset(ParseAll(b))
    decreases |a|
  {
    if a == [] {
      assert |b| == |multiset(b)| == 0;
    } else {
      var last := a[|a| - 1];
      var a' := a[..|a| - 1];
      assert last in multiset(b) by {
        assert last in a;
      }
      var j :| 0 <= j < |b| && b[j] == last;
      var front, rest := b[..j], b[j + 1..];
      assert a == a' + [last];
      assert b == front + [last] + rest;
      MultisetRemove(b, j);
      ParseAllPermutation(a', front + rest);
      ParseAllAppend(a', [last]);
      ParseAllAppend(front + [last], rest);
      ParseAllAppend(front, [last]);
      ParseAllAppend(front, rest);
    }
  }

  /** The totals of a list do not depend on the order of its cards. */
  lemma CardOrderIrrelevant(a: seq<string>, b: seq<string>)
    requires multiset(a) == multiset(b)
    ensures Tally(ParseAll(a)) == Tally(ParseAll(b))
  {
    ParseAllPermutation(a, b);
    TallyPermutation(ParseAll(a), ParseAll(b));
  }

  /** A card whose title carries no points changes nothing, wherever it stands. */
  lemma PointlessTitleIgnored(a: seq<string>, title: string, b: seq<string>)
    requires ParseStoryPoints(title) == None
    ensures Tally(ParseAll(a + [title] + b)) == Tally(ParseAll(a + b))
  {
    ParseAllAppend(a + [title], b);
    ParseAllAppend(a, [title]);
    ParseAllAppend(a, b);
    var pa, pb, none := ParseAll(a), ParseAll(b), [None];
    assert ParseAll([title]) == none;
    TallyAppend(pa + none, pb);
    TallyAppend(pa, none);
    TallyAppend(pa, pb);
    assert Tally(none) == NO_TOTALS by {
      assert none[..0] == [];
    }
  }

  /** A pointed card counts once and adds its numeric fields, whatever they hold. */
  lemma PointedCardCounts(a: seq<Option<Points>>, p: Points)
    ensures Tally(a + [Some(p)]).cardCount == Tally(a).cardCount + 1
    ensures Tally(a + [Some(p)]).estimate == Tally(a).estimate + Contribution(p.estimate)
    ensures Tally(a + [Some(p)]).used == Tally(a).used + Contribution(p.used)
  {
    assert (a + [Some(p)])[..|a|] == a;
  }

  /** Only numbers reach a total: the marker '?' and NaN add nothing. */
  lemma ContributionIsNumber(v: PointValue)
    ensures Contribution(v) != 0.0 ==> v.Num? && v.r == Contribution(v)
    ensures v == Unknown || v == NaN ==> Contribution(v) == 0.0
  {
  }

  /** `cardCount` is zero exactly when no card carries points. */
  lemma {:induction false} NoCardsIff(parsed: seq<Option<Points>>)
    ensures Tally(parsed).cardCount == 0 <==> forall i | 0 <= i < |parsed| :: parsed[i] == None
  {
    if parsed != [] {
      var init := parsed[..|parsed| - 1];
      NoCardsIff(init);
      assert forall i | 0 <= i < |init| :: init[i] == parsed[i];
    }
  }

  /** `cardCount` is the number of cards exactly when every card carries points. */
  lemma {:induction false} AllCardsIff(parsed: seq<Option<Points>>)
    ensures Tally(parsed).cardCount == |parsed| <==> forall i | 0 <= i < |parsed| :: parsed[i].Some?
  {
    if parsed != [] {
      var init := parsed[..|parsed| - 1];
      AllCardsIff(init);
      assert forall i | 0 <= i < |init| :: init[i] == parsed[i];
    }
  }

  /** Totals over cards whose numbers are all at least 0 are at least 0. */
  lemma {:induction false} TallyNonNegative(parsed: seq<Option<Points>>)
    requires forall i | 0 <= i < |parsed| :: parsed[i].Some? ==> NonNegative(parsed[i].value)
    ensures Tally(parsed).estimate >= 0.0 && Tally(parsed).used >= 0.0
  {
    if parsed != [] {
      var init := parsed[..|parsed| - 1];
      assert forall i | 0 <= i < |init| :: init[i] == parsed[i];
      TallyNonNegative(init);
    }
  }

  /** The totals of any list of titles are at least 0. */
  lemma TotalsNonNegative(titles: seq<string>)
    ensures Tally(ParseAll(titles)).estimate >= 0.0 && Tally(ParseAll(titles)).used >= 0.0
  {
    var parsed := ParseAll(titles);
    forall i | 0 <= i < |parsed|
      ensures parsed[i].Some? ==> NonNegative(parsed[i].value)
    {
      assert parsed[i] == ParseStoryPoints(titles[i]);
    }
    TallyNonNegative(parsed);
  }

  /**
   * The header shows both labels or neither, and neither exactly when no title of the list
   * carries points.
   */
  lemma HeaderLabelsRule(titles: seq<string>)
    ensures HeaderLabels(Tally(ParseAll(titles))) == []
        <==> forall i | 0 <= i < |titles| :: ParseStoryPoints(titles[i]) == None
    ensures |HeaderLabels(Tally(ParseAll(titles)))| in {0, 2}
  {
    var parsed := ParseAll(titles);
    NoCardsIff(parsed);
    assert forall i | 0 <= i < |titles| :: parsed[i] == ParseStoryPoints(titles[i]);
  }

  /** `cardCount` is the number of cards that carry points. */
  lemma {:induction false} CardCountIsPointed(parsed: seq<Option<Points>>)
    ensures Tally(parsed).cardCount == |set i | 0 <= i < |parsed| && parsed[i].Some?|
  {
    if parsed != [] {
      var n := |parsed| - 1;
      var init := parsed[..n];
      CardCountIsPointed(init);
      var before := set i | 0 <= i < n && init[i].Some?;
      var all := set i | 0 <= i < |parsed| && parsed[i].Some?;
      assert forall i | 0 <= i < n :: init[i] == parsed[i];
      if parsed[n].Some? {
        assert all == before + {n};
      } else {
        assert all == before;
      }
    }
  }

  /** `cardCount` is the number of titles of the list that carry points. */
  lemma PointedTitlesCounted(titles: seq<string>)
    ensures Tally(ParseAll(titles)).cardCount == |set i | 0 <= i < |titles| && ParseStoryPoints(titles[i]).Some?|
  {
    var parsed := ParseAll(titles);
    CardCountIsPointed(parsed);
    assert (set i | 0 <= i < |parsed| && parsed[i].Some?)
        == (set i | 0 <= i < |titles| && ParseStoryPoints(titles[i]).Some?);
  }

  /**
   * The cards "(3) A", "(?) B [2]" and "(5) C [5]", parsed as `ExampleCardA`, `ExampleCardB`
   * and `ExampleCardC` show: `?` is left out of the estimate total, yet its card is counted.
   */
  lemma ExampleTally()
    ensures Tally([Some(Points(Num(3.0), Num(0.0))), Some(Points(Unknown, Num(2.0))), Some(Points(Num(5.0), Num(5.0)))])
         == Totals(8.0, 7.0, 3)
  {
    var a, b, c := Some(Points(Num(3.0), Num(0.0))), Some(Points(Unknown, Num(2.0))), Some(Points(Num(5.0), Num(5.0)));
    assert [a][..0] == [];
    assert Tally([a]) == Accumulate(NO_TOTALS, a) == Totals(3.0, 0.0, 1);
    assert [a, b][..1] == [a];
    assert Tally([a, b]) == Accumulate(Totals(3.0, 0.0, 1), b) == Totals(3.0, 2.0, 2);
    assert [a, b, c][..2] == [a, b];
    assert Tally([a, b, c]) == Accumulate(Totals(3.0, 2.0, 2), c) == Totals(8.0, 7.0, 3);
  }
}
