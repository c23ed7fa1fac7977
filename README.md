# poker-js: pattern unification and poker hands, modelled in Dafny

poker-js recognises poker hands with a small pattern-matching library. `match.js` unifies a
pattern tree with a nested array. The pattern kinds are constants, the `wildcard`,
`Variable`, `FunctionCall`, `Capture`, `Any` and `Unordered`; `Unordered` matches a group
in any order by trying every permutation of its values. An array is matched left to
right: each element is first substituted with the bindings collected so far, so a
repeated variable acts as an equality constraint. `cards.js` builds cards
(`[suit, rank]`), offsets a rank cyclically (`addRank`) and renders cards as text.
`poker.js` builds the 52-card deck and defines ten hand patterns.

The project has these modules:

- `Wrappers`: an `Option` type. `None` is the `false` that `match` returns on failure.
- `Cards` (`cards.dfy`): `indexOf`, JavaScript's truncating `%`, `addRank`, `makeCard`,
  `cardToString` and `toString`.
- `Permute` (`permute.dfy`): `permutations`. It is a function, and a method with the ordering
  loop proved equal to it. Also proved: the orderings are exactly the rearrangements, there
  are n! of them, and the first one is the input.
- `Matcher` (`match.dfy`): the pattern datatype, `substitute` and `match`. `match` is a
  specification function `Match`, and also the method `Unify`, proved equal to it. `Unify`
  has the loops and early returns of the source.
- `MatchFacts` (`match_facts.dfy`): what `substitute` and `match` do, case by case. How
  `Any` and `Unordered` choose their result. Idempotence of substitution. Ground patterns
  bind nothing.
- `MatchExamples` (`match_examples.dfy`): the documented examples of `match.js`.
- `Poker` (`poker.dfy`): suits, ranks, the deck loop, `addRank` and the ten patterns.
- `PokerHands` (`poker_hands.dfy`): the ten hands of `test.js`, each shown to match its
  pattern. Also general theorems for straights, straight flushes and flushes.
- `PokerFindings` (`poker_findings.dfy`): two patterns that accept hands they should not
  (see Findings). Each has the counterexample and a corrected pattern, proved exact.

JavaScript details that matter here are written out:

- `indexOf` answers -1 for a value that is not a rank, including an unsubstituted
  `Variable` object.
- `%` keeps the sign of its left operand.
- A variable bound to `undefined` counts as unbound in `substitute`: match.js:96-97 leaves
  it in place.
- `Capture` adds its label after the inner bindings.
- The array loop merges each element's bindings over those collected so far.

## Model

| member | source | states |
|---|---|---|
| Cards.IndexOf | cards.js:13 | the result is -1 exactly for a non-member; otherwise it is the first position holding the value |
| Cards.TruncRem | cards.js:13 | JavaScript `%`: strictly inside (-b, b), equal to Euclidean `%` for a non-negative dividend, never positive for a negative one |
| Cards.TruncRemExact | cards.js:13 | the remainder differs from the dividend by a multiple of the divisor, and it is the only value inside (-b, b) of the dividend's sign (or zero) that does, so `-1 % 13` is -1 |
| Cards.AddRank | cards.js:11-14 | any defined result is a rank; a member rank always gives a defined result |
| Cards.AddRankOfMember | cards.js:11-14 | for a member, the result is the rank at (index + add) mod the number of ranks |
| Cards.AddRankAt | cards.js:11-14 | in a repeat-free table, offsetting the entry at i gives the entry at (i + add) mod n |
| Cards.AddRankCycle | cards.js:11-14 | an offset of 0, or of one full cycle, gives the rank back |
| Cards.AddRankCompose | cards.js:11-14 | two offsets in a row equal one offset by their sum |
| Cards.AddRankOfNonMember | cards.js:11-14 | a non-rank counts from index -1: an offset of add >= 1 reads rank add - 1, and, with more than one rank, offset 0 reads `undefined` |
| Cards.CardToStringOfMakeCard | cards.js:16-22 | `makeCard` builds `[suit, rank]`, which renders as rank + " of " + suit |
| Cards.ToStringShape | cards.js:24-26 | no cards give "", one card gives its own text, and each further card is appended after ", " |
| Permute.ListPermutations | match.js:121-135 | the loop over the positions returns exactly `Permutations(arr)` |
| Permute.PermutationsOfEmpty | match.js:122-124 | the empty array has the single empty ordering |
| Permute.PermutationsLength | match.js:121-135 | there are exactly n! orderings |
| Permute.PermutationsRearrange | match.js:121-135 | every ordering is a rearrangement of the input |
| Permute.PermutationsComplete | match.js:121-135 | every rearrangement of the input is among the orderings |
| Permute.PrependedIn | match.js:127-131 | an element followed by an ordering of the rest without it is an ordering of the whole |
| Permute.PermutationsHead | match.js:121-135 | the first ordering is the input itself |
| Matcher.OrderingsOfValues | match.js:45-55 | an `Unordered` node over n values holds n! array patterns, the first being the values as given and each one a rearrangement of them |
| Matcher.CallTarget | match.js:57-64 | a function call yields a constant: a rank, or `undefined` |
| Matcher.Unify | match.js:137-210 | the recursive method with the source's loops and early returns computes exactly `Match` |
| Matcher.UnifyFirst | match.js:163-181 | the `for ... of` loop returns the first success, exactly `MatchFirst` |
| MatchFacts.SubstituteLeaves | match.js:93-98 | constants and the wildcard are kept; a variable is replaced exactly when it is bound to something other than `undefined` |
| MatchFacts.SubstituteKeepsShape | match.js:99-106 | arrays keep their length, and a capture keeps its label, and `Any` keeps its number of alternatives |
| MatchFacts.SubstituteLift | match.js:93-100 | a value put in place of a variable contains no variables, so later substitutions leave it alone |
| MatchFacts.SubstituteUnordered | match.js:107-110 | substitution rebuilds an ordering group from its substituted first ordering |
| MatchFacts.SubstituteWellFormed | match.js:93-119 | substitution keeps every ordering group one that the constructor builds |
| MatchFacts.SubstituteEmpty | match.js:93-119 | substituting with no bindings gives the pattern back |
| MatchFacts.SubstituteIdempotent | match.js:93-119 | substituting twice with the same bindings equals substituting once |
| MatchFacts.MatchAtoms | match.js:138-144 | two constants match exactly when they are equal, and then bind nothing |
| MatchFacts.MatchWildcardAndVariable | match.js:146-150 | the wildcard matches anything and binds nothing; a variable matches anything and binds its label to it |
| MatchFacts.MatchCall | match.js:152-153 | a function call matches exactly what the call returns |
| MatchFacts.IndexOfRankValues | poker.js:97-99 | searching the constant patterns finds a rank string at its index in the rank table |
| MatchFacts.CallTargetOfRank | match.js:152-153 | called on a rank string, the call is `cards.addRank(ranks, rank, add)` |
| MatchFacts.CallTargetOfNonRank | match.js:152-153 | called on anything else, such as an unbound variable, the call reads the rank add - 1 places after the first |
| MatchFacts.MatchCapture | match.js:155-161 | a capture fails exactly when its pattern fails; otherwise it returns the pattern's bindings with the label bound to the whole expression |
| MatchFacts.MatchKindMismatch | match.js:207-209 | a constant never matches an array, and an array pattern never matches a constant |
| MatchFacts.MatchArrayLengths | match.js:183-190 | arrays of different lengths never match; two empty arrays match with no bindings |
| MatchFacts.MatchFirstSpec | match.js:163-181 | the loop fails exactly when every remaining pattern fails; otherwise it returns the first success, and every earlier pattern failed |
| MatchFacts.MatchAny | match.js:163-171 | `Any` fails exactly when all alternatives fail; otherwise it returns the first alternative that succeeds |
| MatchFacts.MatchUnorderedFirst | match.js:173-181 | an ordering group returns the first ordering that matches, and fails exactly when none does |
| MatchFacts.MatchUnorderedRearrangement | match.js:45-55 | `Unordered(values)` matches exactly when some rearrangement of the values matches as an array |
| MatchFacts.MatchUnorderedInOrder | match.js:173-181 | when the values match in the order given, the group returns exactly those bindings |
| MatchFacts.MatchUnorderedVia | match.js:173-181 | one matching rearrangement is enough for the group to match |
| MatchFacts.MatchArrFits | match.js:183-205 | a matching array pattern faces an array of the same length, and every element fits its counterpart under some bindings |
| MatchFacts.MatchArrOfFixed | match.js:183-205 | an array pattern whose elements need no substitution matches every array of its length whose elements each match |
| MatchFacts.MatchSeqOfFixed | match.js:192-205 | elements that need no substitution and each match their counterpart make the whole array match |
| MatchFacts.MatchTwoElements | match.js:192-205 | for two elements: match the first, substitute its bindings into the second, match that, and merge the two |
| MatchFacts.MatchSeqBound | match.js:192-205 | elements that bind nothing new leave the collected bindings unchanged |
| MatchFacts.MatchLift | match.js:137-210 | a variable-free value used as a pattern matches exactly itself, and binds nothing |
| MatchFacts.RepeatedVariable | match.js:192-205 | `[x, x]` matches exactly the pairs of equal values and binds x to that value; a first value of `undefined` does not constrain the second |
| MatchFacts.MkUnorderedGround | match.js:45-55 | an ordering group of ground values is itself ground; ground means no variable and no capture, except as the argument of a function call |
| MatchFacts.SubstituteGround | match.js:93-119 | substitution keeps a ground pattern ground |
| MatchFacts.MatchGround | match.js:137-210 | a ground pattern that matches binds nothing |
| MatchExamples.NestedArrayExample | match.js:18-21 | `[1, 2, [3, x]]` against `[1, 2, [3, "hello"]]` gives `{x: "hello"}` |
| MatchExamples.UnorderedExample | match.js:39-42 | `Unordered(3, 2, "a", 1)` against `[1, 2, 3, "a"]` gives `{}` |
| MatchExamples.UnorderedOfConstants | match.js:45-55 | four constants grouped without order match them listed in another order, and bind nothing |
| MatchExamples.UnorderedIgnoresOrder | match.js:32-34 | `Unordered(1, 2, 3)` matches `[3, 1, 2]` |
| MatchExamples.UnorderedNeedsEveryValue | match.js:45-55 | `Unordered(1, 2)` does not match `[1, 1]` |
| MatchExamples.ConstNeverFits | match.js:138-144 | a constant fits no other expression, whatever is bound |
| MatchExamples.CaptureExample | match.js:155-161 | `Capture("all", [a, _])` against `[5, 9]` gives `{a: 5, all: [5, 9]}` |
| Poker.SuitsAndRanksDistinct | poker.js:4-6 | 4 suits and 13 ranks, none repeated |
| Poker.BuildDeck | poker.js:7-12 | the nested loop builds 52 cards, card 13 i + j being suit i with rank j, with no card twice |
| Poker.AddRank | poker.js:97-99 | offsetting a rank gives a rank |
| Poker.RankPosition | poker.js:5-6 | every rank is found at its own index |
| Poker.AddRankOfRank | poker.js:97-99 | rank i offset by n is rank (i + n) mod 13 |
| Poker.AddRankWrapsToAce | poker.js:97-99 | the rank after the king is the ace |
| Poker.AddRankTwoPlusFour | poker.js:97-99 | the two offset by four is the six |
| PokerHands.RoyalFlushOfSuit | poker.js:15-21 | the ten, jack, king, ace and queen of any one suit match `royal_flush` |
| PokerHands.RoyalFlushMatches | poker.js:15-21 | the royal flush of test.js, given out of order, matches `royal_flush` |
| PokerHands.FitsRankIs | poker.js:15-21 | a card pattern with a constant rank fits only cards of that rank, whatever its suit pattern |
| PokerHands.UnorderedNeedsRank | match.js:45-55 | an ordering group with a card of constant rank r among its values matches only arrays holding a card of rank r |
| PokerHands.RoyalFlushNeedsTen | poker.js:15-21 | `royal_flush` matches only hands that hold a ten |
| PokerHands.RoyalFlushRejectsNineHigh | poker.js:15-21 | 9, J, K, A, Q of diamonds does not match `royal_flush` |
| PokerHands.StraightFlushMatches | poker.js:22-32 | the straight flush of test.js matches `straight_flush` with `{s1: diamond, r1: 2}` |
| PokerHands.StraightFlushOfRun | poker.js:22-32 | five cards of one suit and five ranks in a row, in order, match `straight_flush` with that suit and the lowest rank |
| PokerHands.FourOfAKindOfRank | poker.js:33-39 | four cards of one rank, of any suits, with any card at the fourth position, match `four_of_a_kind` |
| PokerHands.FourOfAKindMatches | poker.js:33-39 | the four of a kind of test.js matches `four_of_a_kind` |
| PokerHands.FullHouseOfRanks | poker.js:40-46 | three cards of one rank and two of any other rank, mixed as in test.js, match `full_house` |
| PokerHands.FullHouseMatches | poker.js:40-46 | the full house of test.js matches `full_house` |
| PokerHands.FlushMatches | poker.js:47-53 | the flush of test.js matches `flush` with `{s1: spade}` |
| PokerHands.FlushOfSuit | poker.js:47-53 | any five cards of one suit match `flush` and bind that suit |
| PokerHands.StraightMatches | poker.js:54-64 | the straight of test.js matches `straight` with `{r1: 2}` |
| PokerHands.StraightOfRun | poker.js:54-64 | five ranks in a row, in order, of any suits, match `straight` and bind the lowest rank; the run may wrap from the king to the ace |
| PokerHands.ThreeOfAKindOfRank | poker.js:65-71 | three cards of one rank with any two other cards, at the first and fourth positions, match `three_of_a_kind` |
| PokerHands.ThreeOfAKindMatches | poker.js:65-71 | the three of a kind of test.js matches `three_of_a_kind` |
| PokerHands.TwoPairsOfRanks | poker.js:72-78 | two pairs of any ranks with any fifth card, placed as in test.js, match `two_pairs` |
| PokerHands.TwoPairsMatches | poker.js:72-78 | the two pairs of test.js match `two_pairs` |
| PokerHands.HighRankCaptured | poker.js:80-82 | `[_, Capture("r1", Any("J", "Q", "K", "A"))]` accepts a card of high rank under any earlier bindings, and binds r1 to that rank |
| PokerHands.MatchHighRank | poker.js:80-82 | `Capture("r1", Any("J", "Q", "K", "A"))` accepts each high rank and binds r1 to it |
| PokerHands.JacksOrBetterOfPair | poker.js:79-87 | a pair of jacks, queens, kings or aces among any three other cards, placed as in test.js, matches `jacks_or_better` |
| PokerHands.JacksOrBetterMatches | poker.js:79-87 | the pair of kings of test.js matches `jacks_or_better` |
| PokerHands.PairOfRank | poker.js:88-94 | two cards of one rank at the second and third positions, among any three other cards, match `pair` |
| PokerHands.PairMatches | poker.js:88-94 | the pair of test.js matches `pair` |
| PokerFindings.JacksOrBetterAcceptsNoPair | poker.js:79-87 | a hand with no pair at all, holding only a single jack, matches `jacks_or_better` |
| PokerFindings.JacksOrBetterTakesHighCard | poker.js:79-87 | as written, `jacks_or_better` matches every hand whose second card is a jack, queen, king or ace, whatever the other four cards are |
| PokerFindings.MatchCardOfRank | poker.js:79-87 | a card pattern of rank r fits exactly the cards of rank r |
| PokerFindings.PairOfSound | poker.js:79-87 | a hand matched by the corrected group for rank r has five cards, two of them of rank r |
| PokerFindings.PairOfComplete | poker.js:79-87 | every five-card hand with two cards of rank r matches the corrected group for rank r |
| PokerFindings.PairOfSpec | poker.js:79-87 | the corrected group for rank r matches exactly the five-card hands with two cards of rank r |
| PokerFindings.PairsOfSpec | poker.js:79-87 | a choice among the corrected groups for some ranks matches exactly the five-card hands holding a pair of one of those ranks, and binds nothing |
| PokerFindings.JacksOrBetterPairSpec | poker.js:79-87 | the corrected pattern matches exactly the five-card hands holding a pair of jacks, queens, kings or aces, and binds nothing |
| PokerFindings.JacksOrBetterPairRejectsHighCard | poker.js:79-87 | the corrected pattern rejects the no-pair hand |
| PokerFindings.JacksOrBetterPairAcceptsTestHand | poker.js:79-87 | the corrected pattern still accepts the test.js hand |
| PokerFindings.GapHandHoldsNoRun | poker.js:54-64 | A, 2, 4, 5, 6 holds no five ranks in a row |
| PokerFindings.AboveUnbound | poker.js:56-57 | with r1 unbound, `FunctionCall(addRank, r1, n)` reads the rank n - 1 places above the ace |
| PokerFindings.StraightTakesAceGap | poker.js:54-64 | an ace with ranks i, i + 2, i + 3, i + 4, of any suits, matches `straight` |
| PokerFindings.StraightAcceptsGap | poker.js:54-64 | A, 2, 4, 5, 6 holds no run and still matches `straight` |
| PokerFindings.RunOfSound | poker.js:54-64 | a hand matched by the corrected group for run i has five cards whose ranks are run i in some order |
| PokerFindings.RunOfComplete | poker.js:54-64 | every hand whose ranks are run i in some order matches the corrected group for run i |
| PokerFindings.StraightAsIntendedSpec | poker.js:54-64 | the corrected straight matches exactly the five-card hands whose ranks are five in a row, in any order and of any suits, and binds nothing |
| PokerFindings.StraightHoldsRun | poker.js:54-64 | a hand whose ranks are a run in some order holds every rank of that run |
| PokerFindings.StraightAsIntendedRejectsGap | poker.js:54-64 | the corrected straight rejects A, 2, 4, 5, 6 |
| PokerFindings.StraightAsIntendedAcceptsRun | poker.js:54-64 | the corrected straight accepts every run in order, whatever its suits |
| PokerFindings.StraightAsIntendedAcceptsTestHand | poker.js:54-64 | the corrected straight still accepts the test.js hand |

## Left out

- `drawFrom` (cards.js:1-9) draws with `Math.random`. Randomness is not part of this model.
- The test runner loop of test.js (test.js:79-84) and its `assert` are not modelled. Each
  of its ten hands is a lemma instead.
- Module plumbing (`require`, `module.exports`) and the `instanceof` self-construction
  idiom of the pattern constructors are not modelled. Each constructor is a datatype
  constructor.
- `isConstant` and `isArray` (match.js:85-91) become the datatype's own cases. Values of
  other JavaScript types (objects, symbols other than `wildcard`, functions) are not
  modelled.
- Matcher.Call: `FunctionCall` is modelled only as the function poker.js passes to it, an
  `addRank` over a rank table with one argument and a whole-number offset. Arbitrary
  JavaScript functions are left out.
- Numbers are integers. Non-integer and special floating-point values (`NaN`, `-0`) are not
  distinguished.
- Matcher.Substitute keeps an `Unordered` node with no orderings unchanged. JavaScript
  would throw on `permutations[0]`. The constructor never builds such a node.
- Key order of the JavaScript result object is not modelled; bindings are a map.
- Matcher.Substitute: labels are assumed not to be names inherited from `Object.prototype`
  (`constructor`, `toString`, `__proto__` and the like). At match.js:97 such a label reads as
  bound in an empty bindings object, so `match([Variable("constructor")], [1])` fails in
  JavaScript, while the model binds the label to 1.
- Cards.AddRank: the offset is a natural number. cards.js also accepts a negative offset,
  which the model does not cover; poker.js only passes positive ones.
- `straight_flush` (poker.js:22-32) shares the unbound-`addRank` flaw of `straight`. The
  model proves what it accepts in order (PokerHands.StraightFlushOfRun), but it gives no
  counterexample or correction for it.

## Findings

| source | as written | input that shows it | evidently intended | confidence | as-written member | corrected member |
|---|---|---|---|---|---|---|
| poker.js:79-87 | `jacks_or_better` groups `[_, Capture("r1", Any(J, Q, K, A))]`, `[_, r1]` and three wildcards. An ordering that puts `[_, r1]` first binds r1 to any rank. The capture then accepts a high card and overwrites r1. | 2♥, J♠, 5♦, 3♣, 7♦ (no pair) | a pair of jacks, queens, kings or aces | high; proved, not executed | PokerFindings.JacksOrBetterAcceptsNoPair | PokerFindings.JacksOrBetterPairSpec |
| poker.js:54-64 | `straight` may try `[_, FunctionCall(addRank, r1, 1)]` before r1 is bound. The call then looks up index -1 and reads the ace, and the rest of the run is counted from the rank bound next. | A♥, 2♠, 4♦, 5♣, 6♦ (no run) | five ranks in a row, in any order | high; proved, not executed | PokerFindings.StraightAcceptsGap | PokerFindings.StraightAsIntendedSpec |
