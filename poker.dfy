/** The poker game's tables: the suits, the ranks, the deck built from them, and the
    hand patterns written in the matcher's pattern language. */
module Poker {
  import opened Wrappers
  import Cards
  import opened Matcher

  const Suits: seq<string> := ["spade", "heart", "diamond", "club"]
  const Ranks: seq<string> := ["A", "2", "3", "4", "5", "6", "7", "8", "9", "10", "J", "Q", "K"]

  lemma SuitsAndRanksDistinct()
    ensures |Suits| == 4 && Cards.Distinct(Suits)
    ensures |Ranks| == 13 && Cards.Distinct(Ranks)
  {
  }

  /** The index arithmetic of the nested deck loops: card `13 * i + j` is rank `j` of suit `i`. */
  lemma DeckIndex(i: nat, j: nat)
    requires j < 13
    ensures (13 * i + j) / 13 == i && (13 * i + j) % 13 == j
  {
    Cards.ModUnique(13 * i + j, i, j, 13);
  }

  /** The deck: for every suit in order, a card of every rank in order. */
  method BuildDeck() returns (deck: seq<Cards.Card>)
    ensures |deck| == |Suits| * |Ranks| == 52
    ensures forall k :: 0 <= k < |deck| ==> deck[k] == Cards.MakeCard(Suits[k / 13], Ranks[k % 13])
    ensures forall i, j :: 0 <= i < |Suits| && 0 <= j < |Ranks| ==>
      deck[13 * i + j] == Cards.MakeCard(Suits[i], Ranks[j])
    ensures Cards.Distinct(deck)
  {
    deck := [];
    for i := 0 to |Suits|
      invariant |deck| == 13 * i
      invariant forall k :: 0 <= k < |deck| ==> deck[k] == Cards.MakeCard(Suits[k / 13], Ranks[k % 13])
    {
      for j := 0 to |Ranks|
        invariant |deck| == 13 * i + j
        invariant forall k :: 0 <= k < |deck| ==> deck[k] == Cards.MakeCard(Suits[k / 13], Ranks[k % 13])
      {
        DeckIndex(i, j);
        deck := deck + [Cards.MakeCard(Suits[i], Ranks[j])];
      }
    }
    forall i, j | 0 <= i < |Suits| && 0 <= j < |Ranks|
      ensures deck[13 * i + j] == Cards.MakeCard(Suits[i], Ranks[j])
    {
      DeckIndex(i, j);
    }
    forall p, q | 0 <= p < q < |deck| ensures deck[p] != deck[q] {
      DeckCardsDiffer(p, q);
    }
  }

  /** Two positions of the deck hold different cards. */
  lemma DeckCardsDiffer(p: nat, q: nat)
    requires p < q < 52
    ensures Cards.MakeCard(Suits[p / 13], Ranks[p % 13]) != Cards.MakeCard(Suits[q / 13], Ranks[q % 13])
  {
    SuitsAndRanksDistinct();
    var c := Cards.MakeCard(Suits[p / 13], Ranks[p % 13]);
    var d := Cards.MakeCard(Suits[q / 13], Ranks[q % 13]);
    assert c[0] == Suits[p / 13] && d[0] == Suits[q / 13];
    assert c[1] == Ranks[p % 13] && d[1] == Ranks[q % 13];
    if p / 13 == q / 13 {
      assert p % 13 != q % 13;
    }
  }

  /** `addRank(rank, n)`: the rank `n` places after `rank`, counting round from the king
      back to the ace. */
  function AddRank(rank: string, n: nat): (r: Option<string>)
    ensures rank in Ranks ==> r.Some? && r.value in Ranks
  {
    Cards.AddRank(Ranks, rank, n)
  }

  /** The position of a rank in the ranks table. */
  lemma RankPosition(i: nat)
    requires i < 13
    ensures Cards.IndexOf(Ranks, Ranks[i]) == i
  {
    SuitsAndRanksDistinct();
    Cards.IndexOfDistinct(Ranks, i);
  }

  /** Adding goes round: the rank `n` places after rank `i` is rank `(i + n) % 13`, so the
      king plus one is the ace and two plus four is six. */
  lemma AddRankOfRank(i: nat, n: nat)
    requires i < 13
    ensures AddRank(Ranks[i], n) == Some(Ranks[(i + n) % 13])
  {
    SuitsAndRanksDistinct();
    Cards.AddRankAt(Ranks, i, n);
  }

  /** The king plus one is the ace. */
  lemma AddRankWrapsToAce()
    ensures AddRank("K", 1) == Some("A")
  {
    AddRankOfRank(12, 1);
    assert Ranks[12] == "K" && (12 + 1) % 13 == 0 && Ranks[0] == "A";
  }

  /** Two plus four is six. */
  lemma AddRankTwoPlusFour()
    ensures AddRank("2", 4) == Some("6")
  {
    AddRankOfRank(1, 4);
    assert Ranks[1] == "2" && (1 + 4) % 13 == 5 && Ranks[5] == "6";
  }

  // ---------------------------------------------------------------------------
  // Hand patterns

  /** A card pattern: `[suit, rank]`. */
  function CardOf(suit: Pattern, rank: Pattern): Pattern { Arr([suit, rank]) }

  function RankIs(r: string): Pattern { Const(Str(r)) }

  /** `FunctionCall(addRank, Variable("r1"), n)`. */
  function Above(n: nat): Pattern { Call(Ranks, Var("r1"), n) }

  const S1 := Var("s1")
  const R1 := Var("r1")
  const R2 := Var("r2")

  const RoyalFlushValues :=
    [CardOf(S1, RankIs("10")), CardOf(S1, RankIs("J")), CardOf(S1, RankIs("Q")),
     CardOf(S1, RankIs("K")), CardOf(S1, RankIs("A"))]
  const StraightFlushValues :=
    [CardOf(S1, R1), CardOf(S1, Above(1)), CardOf(S1, Above(2)), CardOf(S1, Above(3)),
     CardOf(S1, Above(4))]
  const FourOfAKindValues :=
    [CardOf(Wild, R1), CardOf(Wild, R1), CardOf(Wild, R1), CardOf(Wild, R1), Wild]
  const FullHouseValues :=
    [CardOf(Wild, R1), CardOf(Wild, R1), CardOf(Wild, R1), CardOf(Wild, R2), CardOf(Wild, R2)]
  const FlushValues :=
    [CardOf(S1, Wild), CardOf(S1, Wild), CardOf(S1, Wild), CardOf(S1, Wild), CardOf(S1, Wild)]
  const StraightValues :=
    [CardOf(Wild, R1), CardOf(Wild, Above(1)), CardOf(Wild, Above(2)), CardOf(Wild, Above(3)),
     CardOf(Wild, Above(4))]
  const ThreeOfAKindValues :=
    [CardOf(Wild, R1), CardOf(Wild, R1), CardOf(Wild, R1), Wild, Wild]
  const TwoPairsValues :=
    [CardOf(Wild, R1), CardOf(Wild, R1), CardOf(Wild, R2), CardOf(Wild, R2), Wild]
  const HighRankAlternatives := [RankIs("J"), RankIs("Q"), RankIs("K"), RankIs("A")]
  const JacksOrBetterValues :=
    [CardOf(Wild, Capture("r1", Any(HighRankAlternatives))), CardOf(Wild, R1), Wild, Wild, Wild]
  const PairValues :=
    [CardOf(Wild, R1), CardOf(Wild, R1), Wild, Wild, Wild]

  const RoyalFlush := MkUnordered(RoyalFlushValues)
  const StraightFlush := MkUnordered(StraightFlushValues)
  const FourOfAKind := MkUnordered(FourOfAKindValues)
  const FullHouse := MkUnordered(FullHouseValues)
  const Flush := MkUnordered(FlushValues)
  const Straight := MkUnordered(StraightValues)
  const ThreeOfAKind := MkUnordered(ThreeOfAKindValues)
  const TwoPairs := MkUnordered(TwoPairsValues)
  const JacksOrBetter := MkUnordered(JacksOrBetterValues)
  const Pair := MkUnordered(PairValues)
}
