# Trello story points: the title-to-points engine

A Dafny model of the logic of the userscript `trello-story-points.user.js`. The script reads
card titles on a Trello board and annotates the page with what it finds. An estimate is written
in a title as `(5)` and used points as `[3]`; `?` stands for a value not yet known.

The model covers:

- **The two title patterns** (`ESTIMATE_REGEX`, `USED_REGEX`) and what `String.prototype.match`
  returns for them. This is module `TokenPattern`. A leftmost scanner is proved equal to the
  grammar `[?\d]+(?:\.\d+)?` between the two delimiters. The leftmost match is the one whose
  start no other match precedes, and at each start at most one body can match.
- **`parseStoryPoints`** (module `StoryPoints`). The result is `null` (`None`) when neither
  pattern matches. Otherwise a field whose token is present is classified: exactly `"?"` gives
  the marker `'?'` (`Unknown`), anything else gives `parseFloat` of the body (`Num` or `NaN`).
  A field whose token is absent keeps the default `0`.
- **The per-list reduction of `updateListTotals`** (module `ListTotals`). It is a loop with the
  accumulators `totalEstimate`, `totalUsed` and `cardCount`, proved equal to the recursive
  `Tally` of what the titles parse to. The header gets its `Est:` and `Used:` labels only when `cardCount > 0`, and then
  always both.
- **The visibility decision of `createStoryPointsBubble`** (module `Bubbles`). A field gets a
  bubble unless it is `0` or `null`. The estimate bubble comes first. A lone bubble is returned
  bare; zero or two bubbles are returned inside the container.
- **`formatTimeAgo`** (module `TimeAgo`). It turns an age in milliseconds into "just now",
  "Nmin ago", "Nh ago" or "Nd ago".

Point values are exact reals, not IEEE doubles. NaN is its own case of `PointValue`. Because
every function is deterministic and keeps no state, repeated parses and aggregations of the
same titles give the same results.

On these points the model follows the code, whatever one might expect instead:

- An absent token is not a third state: it reads as `0`, the same as an explicit `(0)`.
- `0` never gets a bubble, and NaN does.
- A body such as `"5?"` or `"1?2.5"` is not rejected; `parseFloat` reads its leading digits.
- A body such as `"?5"` becomes NaN, and NaN is left out of the totals.

## Model

| member | source | states |
|---|---|---|
| Lexical.SkipWhile | trello-story-points.user.js:18-19 | the greedy run `[?\d]+` or `\d+` from an index ends at or after that index, and where it ends the character is outside the class, or the text has ended |
| Lexical.SkipWhileRun | trello-story-points.user.js:18-19 | every character the greedy run passes over is in the class, so with `SkipWhile` the run stops at the first character outside it |
| Lexical.DigitsValue | trello-story-points.user.js:167 | the integer part `parseFloat` reads from a run of digits is below 10 to the power of its length |
| Lexical.FractionValue | trello-story-points.user.js:167 | the digits after the point add a fraction in [0, 1) |
| Lexical.NatToDecimal | trello-story-points.user.js:102-104 | the number in the time-ago text is written as digits without a leading zero, and those digits read back as the number |
| Lexical.DecimalRoundTrip | trello-story-points.user.js:102-104 | every canonical numeral is the rendering of the number it denotes, so rendering is the inverse of reading |
| TokenPattern.BodySplit | trello-story-points.user.js:18-19 | the shape `[?\d]+(?:\.\d+)?` with the integer run ending at m: a non-empty run of digits and `?`, then either the end of the body or a point followed by one or more digits |
| TokenPattern.IsBody | trello-story-points.user.js:18-19 | a body, group 1 of both patterns, is a word of that shape for some end m of its integer run |
| TokenPattern.MatchesAt | trello-story-points.user.js:18-19 | a pattern, `ESTIMATE_PATTERN` with `(` and `)` or `USED_PATTERN` with `[` and `]`, matches at index p capturing b when the opening delimiter is at p, b follows it and is a body, and the closing delimiter follows b |
| TokenPattern.Leftmost | trello-story-points.user.js:150-151 | the match `match` reports: the pattern matches at p with b, and matches at no earlier index with any body |
| TokenPattern.NoMatch | trello-story-points.user.js:150-154 | the pattern matches at no index with any body, the case in which `match` returns `null` |
| TokenPattern.MatchAt | trello-story-points.user.js:18-19 | the attempt at one index, when it succeeds, is a match of the grammar there, and its body holds only digits, `?` and `.` |
| TokenPattern.MatchAtCorrect | trello-story-points.user.js:18-19 | the attempt at an index succeeds with body b exactly when the grammar matches there with body b |
| TokenPattern.RunsMatch | trello-story-points.user.js:18-19 | an opening delimiter, a maximal integer run, an optional point with a maximal digit run, and a closing delimiter form a match whose body is the text between the delimiters |
| TokenPattern.SliceSplit | trello-story-points.user.js:18-19 | a slice made of an integer run, optionally followed by a point and digits, is a body split at the end of that run |
| TokenPattern.MatchUnique | trello-story-points.user.js:18-19 | at a given index at most one body matches: the greedy runs never need to backtrack |
| TokenPattern.BodyHasNoDelimiter | trello-story-points.user.js:18-19 | a body never holds a delimiter character |
| TokenPattern.FirstMatch | trello-story-points.user.js:150-151 | when `match` returns a result, the pattern matches at the reported index with the reported group 1, and that body holds only digits, `?` and `.` |
| TokenPattern.FirstMatchFrom | trello-story-points.user.js:150-151 | the search from an index reports a match of the grammar at or after that index |
| TokenPattern.FirstMatchFromComplete | trello-story-points.user.js:150-151 | when the grammar matches at q, the search from any index at or before q reports a match at or before q |
| TokenPattern.FirstMatchIsLeftmost | trello-story-points.user.js:150-151 | `match` reports (p, b) exactly when b matches at p and nothing matches before p |
| TokenPattern.FirstMatchNone | trello-story-points.user.js:150-154 | `match` returns `null` exactly when the pattern matches nowhere in the title |
| TokenPattern.FirstMatchAppend | trello-story-points.user.js:150-151 | appending text to a title that has a match leaves its first match unchanged |
| TokenPattern.FirstOpenMatches | trello-story-points.user.js:150-151 | a match with no opening delimiter before it is the first match |
| StoryPoints.ParseFloat | trello-story-points.user.js:167 | `parseFloat` never gives the marker and never a negative number; it gives NaN exactly when the string starts with neither a digit nor a point followed by a digit |
| StoryPoints.Classify | trello-story-points.user.js:163-168 | a body gives the marker `'?'` exactly when it is `"?"`, and a number it gives is never negative |
| StoryPoints.FieldOf | trello-story-points.user.js:158-180 | a field whose token is absent keeps the default `0`; a field is the marker exactly when its token is present with body `"?"`; a number it holds is never negative |
| StoryPoints.ClassifyNaN | trello-story-points.user.js:166-168 | any other body is NaN exactly when it starts with `?` (`"?5"`, `"??"`) |
| StoryPoints.ClassifyWhole | trello-story-points.user.js:166-168 | a body whose integer run is all digits is that integer plus the value of its fraction, if it has one |
| StoryPoints.ClassifyCut | trello-story-points.user.js:166-168 | a body whose integer run has a `?` after some digits is the integer of those digits, and its fraction is ignored (`"5?"` is 5, `"1?2.5"` is 1) |
| TokenPattern.BodyAlphabet | trello-story-points.user.js:18-19 | every word of the body grammar consists of digits, `?` and `.` |
| StoryPoints.ParseStoryPoints | trello-story-points.user.js:149-182 | in a non-null result every number either field holds is at least 0, since neither pattern admits a sign; its `null` case and its fields are pinned down by the four lemmas below |
| StoryPoints.ParseNullIff | trello-story-points.user.js:150-156 | `parseStoryPoints` returns `null` exactly when neither pattern matches anywhere in the title |
| StoryPoints.EstimateIsLeftmostToken | trello-story-points.user.js:150-169 | the estimate is the classified body of the leftmost estimate match, whatever else the title holds |
| StoryPoints.UsedIsLeftmostToken | trello-story-points.user.js:151-179 | the used value is the classified body of the leftmost used match, whatever else the title holds |
| StoryPoints.AbsentIsZero | trello-story-points.user.js:158-159 | in a non-null result, a field whose pattern matches nowhere is `0` |
| StoryPoints.EstimateIgnoresAppendedText | trello-story-points.user.js:150-169 | text after the estimate token, a used token included, leaves the estimate as it was |
| StoryPoints.UsedIgnoresAppendedText | trello-story-points.user.js:151-179 | text after the used token, an estimate token included, leaves the used value as it was |
| StoryPoints.ExampleNoTokens | trello-story-points.user.js:154-156 | "Fix bug" gives `null` |
| StoryPoints.ExampleEstimateOnly | trello-story-points.user.js:158-181 | "(5) Fix bug" gives estimate 5 and used 0 |
| StoryPoints.ExampleBothTokens | trello-story-points.user.js:149-182 | "(5) Fix [3]" gives 5 and 3 |
| StoryPoints.ExampleBothUnknown | trello-story-points.user.js:164-175 | "(?) Spike [?]" gives the marker in both fields |
| StoryPoints.ExampleExplicitZero | trello-story-points.user.js:158-181 | "(0) Done [0]" gives 0 and 0 |
| StoryPoints.ExampleAbsentZero | trello-story-points.user.js:158-181 | "(0) Done" gives the same result as "(0) Done [0]": an absent token reads 0 |
| StoryPoints.ExampleFraction | trello-story-points.user.js:167 | "(2.5)" gives 2.5 |
| StoryPoints.ExampleMixedMarks | trello-story-points.user.js:166-178 | "(5?) [?5]" gives 5 and NaN |
| StoryPoints.ExampleCutFraction | trello-story-points.user.js:167 | "(1?2.5)" gives 1 |
| StoryPoints.ExampleNested | trello-story-points.user.js:18-19 | "[(3)]" has an estimate of 3 and no used token |
| StoryPoints.ExampleSkipsNonToken | trello-story-points.user.js:150 | "(x) (4)" skips the first parenthesis and gives 4 |
| StoryPoints.ExampleCardA | trello-story-points.user.js:149-182 | "(3) A" gives 3 and 0 |
| StoryPoints.ExampleCardB | trello-story-points.user.js:149-182 | "(?) B [2]" gives the marker and 2 |
| StoryPoints.ExampleCardC | trello-story-points.user.js:149-182 | "(5) C [5]" gives 5 and 5 |
| ListTotals.Counted | trello-story-points.user.js:295-299 | a field passes the guard of its `+=` exactly when it is a number other than 0 |
| ListTotals.Contribution | trello-story-points.user.js:295-299 | what a field adds to its total is the number it holds, and nothing for `'?'` or NaN; leaving out 0 changes no sum |
| ListTotals.Accumulate | trello-story-points.user.js:289-302 | one callback step: a `null` parse changes nothing; a non-null one counts the card once and adds each field that holds a number, while `'?'` and NaN add nothing |
| ListTotals.ParseAll | trello-story-points.user.js:284-289 | one parse result per title, in order, each the parse of that title alone |
| ListTotals.HeaderLabels | trello-story-points.user.js:307-327 | no labels when `cardCount` is 0, and otherwise exactly two: `Est:` with the estimate total, then `Used:` with the used total |
| ListTotals.Tally | trello-story-points.user.js:284-303 | the accumulators after the callback has run over the parsed titles in order from 0, 0, 0; `cardCount` never exceeds the number of cards (its exact value is `CardCountIsPointed`) |
| ListTotals.UpdateListTotals | trello-story-points.user.js:275-327 | the loop leaves the accumulators equal to `Tally` of what the titles parse to; the header gets no labels exactly when `cardCount` is 0, and otherwise `Est:` then `Used:` carrying the totals |
| ListTotals.AddCard | trello-story-points.user.js:290-302 | the callback body, which adds a field only past the guard of its `+=` and counts a non-null card, takes exactly one step of `Tally` |
| ListTotals.TallyStep | trello-story-points.user.js:284-303 | the totals after one more card are one more callback step on the totals before it |
| ListTotals.TallyAppend | trello-story-points.user.js:284-303 | the totals of two runs of cards, one after the other, are the sums of their totals |
| ListTotals.AccumulateShift | trello-story-points.user.js:289-301 | one callback step after earlier totals equals those totals plus the step taken alone |
| ListTotals.TallyRemove | trello-story-points.user.js:284-303 | the totals of the cards are those of the other cards followed by one callback step for the card taken out |
| ListTotals.AccumulateSwap | trello-story-points.user.js:289-301 | a callback step commutes with adding totals of cards that come after it |
| ListTotals.MultisetRemove | trello-story-points.user.js:284 | removing a card from a list removes one copy of it from the multiset of cards |
| ListTotals.TallyPermutation | trello-story-points.user.js:284-303 | reordering the parsed cards changes neither the totals nor the card count |
| ListTotals.ParseAllAppend | trello-story-points.user.js:284-289 | each title is parsed on its own, so parsing two runs of titles is parsing each run |
| ListTotals.ParseAllPermutation | trello-story-points.user.js:284-289 | reordering the titles reorders what they parse to |
| ListTotals.CardOrderIrrelevant | trello-story-points.user.js:284-303 | the totals and the card count of a list do not depend on the order of its cards |
| ListTotals.PointlessTitleIgnored | trello-story-points.user.js:289-290 | a title that parses to `null` changes nothing, wherever it stands |
| ListTotals.PointedCardCounts | trello-story-points.user.js:290-302 | a non-null card adds exactly 1 to `cardCount`, whatever its fields (`?`, NaN, 0), and adds what its fields contribute to the totals |
| ListTotals.ContributionIsNumber | trello-story-points.user.js:295-300 | only a number reaches a total; `'?'` and NaN add nothing |
| ListTotals.CardCountIsPointed | trello-story-points.user.js:284-303 | `cardCount` is the number of parsed cards that are non-null |
| ListTotals.PointedTitlesCounted | trello-story-points.user.js:284-303 | `cardCount` is the number of titles of the list that parse to non-null |
| ListTotals.NoCardsIff | trello-story-points.user.js:284-303 | `cardCount` is 0 exactly when every card parsed to `null` |
| ListTotals.AllCardsIff | trello-story-points.user.js:284-303 | `cardCount` equals the number of cards exactly when every card parsed to non-null |
| ListTotals.TallyNonNegative | trello-story-points.user.js:284-303 | cards whose numbers are at least 0 give totals that are at least 0 |
| ListTotals.TotalsNonNegative | trello-story-points.user.js:284-303 | the totals of any list of titles are at least 0 |
| ListTotals.HeaderLabelsRule | trello-story-points.user.js:307-327 | the header gets both labels or neither, and neither exactly when no title carries points |
| ListTotals.ExampleTally | trello-story-points.user.js:284-303 | cards parsing to (3, 0), ('?', 2) and (5, 5), as "(3) A", "(?) B [2]" and "(5) C [5]" do, give estimate 8, used 7 and three cards |
| Bubbles.Shown | trello-story-points.user.js:189-197 | a field gets a bubble exactly when it is present and not the number 0, so `'?'` and NaN get one |
| Bubbles.CreateStoryPointsBubble | trello-story-points.user.js:185-206 | one bubble for each field that is neither `0` nor `null`; the estimate bubble first and the used bubble last; the bare bubble exactly when there is one |
| Bubbles.BubbleForTitle | trello-story-points.user.js:230-234 | a card gets no node exactly when its title parses to `null`; otherwise it gets one bubble per non-zero field, in order, returned bare exactly when there is one, and `(0)` alone gives an empty container |
| TimeAgo.Bucket | trello-story-points.user.js:94-105 | the bucket is "just now" below one minute, minutes for 1 to 59 minutes, hours for 1 to 23 hours, and days from 24 hours on; each count is the floor of the age in its unit |
| TimeAgo.Render | trello-story-points.user.js:101-104 | the text is "just now" exactly for that bucket, and otherwise starts with the numeral of the count, followed by a character that is not a digit; the unit that follows is stated by `FormatTimeAgo` |
| TimeAgo.FormatTimeAgo | trello-story-points.user.js:94-105 | the text is "just now" exactly below one minute, and otherwise the floored count followed by "min ago", "h ago" or "d ago" |
| TimeAgo.RenderReadsBack | trello-story-points.user.js:102-104 | the leading digits of the text read back as the count of the bucket |

## Left out

- The DOM work: `addStyles` and its CSS, the removal and reinsertion of bubbles and totals,
  the selector searches and their fallback selectors (including the self-call of
  `updateListTotals`), and `textContent.trim()`. These act on the host page. The titles are the
  input here.
- Timers and events: `createUpdateButton` with its intervals, the retry loop of
  `waitForContent`, the URL poller, the `DOMContentLoaded` wiring and the `window.storyPoints*`
  globals. These are asynchronous browser scheduling.
- `isBoardPage` and every `console.log`: environment checks and diagnostics.
- IEEE-754 arithmetic: point values and totals are exact reals. The rounding of `parseFloat`
  and of `+=` is not modelled.
- StoryPoints.ParseFloat: models `parseFloat` only on strings of digits, `?` and `.`, because
  every matched body is one. Leading whitespace, signs, exponents and `Infinity` never reach
  it.
- Number formatting: the bubble text (`toString()`) and the `Est: …` / `Used: …` label text.
  A label carries its total as a value.
- TimeAgo.FormatTimeAgo: takes `now - date` as an integer input `diffMs` instead of reading
  the clock. It does not model the float quotient before `Math.floor`, or the exponent
  notation JavaScript uses for counts of 10^21 and more.
