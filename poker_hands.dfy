/** The hands of test.js, each matched against its pattern. */
module PokerHands {
  import opened Wrappers
  import opened Matcher
  import opened MatchFacts
  import opened Poker
  import Permute

  /** A dealt card `[suit, rank]` as the matcher sees it. */
  function CardE(suit: string, rank: string): Expr { L([A(Str(suit)), A(Str(rank))]) }

  /** A card pattern whose suit and rank parts are already settled by the bindings matches
      the card and binds nothing new. */
  lemma CardSettled(b: Bindings, sp: Pattern, rp: Pattern, s: string, r: string)
    requires WellFormed(sp) && WellFormed(rp)
    requires Match(Substitute(b, sp), A(Str(s))) == Some(map[])
    requires Match(Substitute(b, rp), A(Str(r))) == Some(map[])
    ensures Match(Substitute(b, CardOf(sp, rp)), CardE(s, r)) == Some(map[])
  {
    var none: Bindings := map[];
    SubstituteWellFormed(b, sp);
    SubstituteWellFormed(b, rp);
    SubstituteEmpty(Substitute(b, rp));
    assert Substitute(b, CardOf(sp, rp)) == CardOf(Substitute(b, sp), Substitute(b, rp));
    MatchTwoElements(Substitute(b, sp), Substitute(b, rp), A(Str(s)), A(Str(r)));
    assert none + none == none;
  }

  /** With `r1` bound to rank `i`, `FunctionCall(addRank, Variable("r1"), n)` matches rank
      `(i + n) % 13` and binds nothing. */
  lemma AboveSettled(b: Bindings, i: nat, n: nat)
    requires i < 13 && "r1" in b && b["r1"] == A(Str(Ranks[i]))
    ensures Match(Substitute(b, Above(n)), A(Str(Ranks[(i + n) % 13]))) == Some(map[])
  {
    assert Substitute(b, Above(n)) == Call(Ranks, Const(Str(Ranks[i])), n);
    CallTargetOfRank(Ranks, Ranks[i], n);
    AddRankOfRank(i, n);
  }

  /** A card pattern `[wildcard, Variable(y)]` with `y` still unbound binds `y` to the rank. */
  lemma RankFresh(b: Bindings, y: string, s: string, r: string)
    requires y !in b
    ensures Match(Substitute(b, CardOf(Wild, Var(y))), CardE(s, r)) == Some(map[y := A(Str(r))])
  {
    var none: Bindings := map[];
    assert SubstituteAll(b, [Wild, Var(y)]) == [Wild, Var(y)];
    MatchTwoElements(Wild, Var(y), A(Str(s)), A(Str(r)));
    assert none + map[y := A(Str(r))] == map[y := A(Str(r))];
  }

  /** The first card of a suited pattern binds `s1` to its suit, and `r1` to its rank when
      the rank part is `Variable("r1")`. */
  lemma SuitFresh(s: string, r: string)
    ensures Match(Substitute(map[], CardOf(S1, R1)), CardE(s, r)) ==
      Some(map["s1" := A(Str(s)), "r1" := A(Str(r))])
    ensures Match(Substitute(map[], CardOf(S1, Wild)), CardE(s, r)) == Some(map["s1" := A(Str(s))])
  {
    var none: Bindings := map[];
    var b := map["s1" := A(Str(s))];
    SubstituteEmpty(CardOf(S1, R1));
    SubstituteEmpty(CardOf(S1, Wild));
    MatchTwoElements(S1, R1, A(Str(s)), A(Str(r)));
    MatchTwoElements(S1, Wild, A(Str(s)), A(Str(r)));
    assert b + map["r1" := A(Str(r))] == map["s1" := A(Str(s)), "r1" := A(Str(r))];
    assert b + none == b;
  }

  /** The wildcard element takes any card and leaves the bindings as they are. */
  lemma WildStep(ps: seq<Pattern>, es: seq<Expr>, k: nat, acc: Bindings)
    requires |ps| == |es| && k < |es| && ps[k] == Wild
    ensures MatchSeq(ps, es, k, acc) == MatchSeq(ps, es, k + 1, acc)
  {
    var none: Bindings := map[];
    assert acc + none == acc;
  }

  // ---------------------------------------------------------------------------
  // Rearrangements of five values, stated on symbolic values

  lemma MovesTwoBack<T>(a: T, b: T, c: T, d: T, e: T)
    ensures multiset([a, b, d, e, c]) == multiset([a, b, c, d, e])
  {
  }

  lemma SwapsFirstTwo<T>(a: T, b: T, c: T, d: T, e: T)
    ensures multiset([b, a, c, d, e]) == multiset([a, b, c, d, e])
  {
    assert [b, a, c, d, e] == [b, a] + [c, d, e];
    assert [a, b, c, d, e] == [a, b] + [c, d, e];
    assert multiset([b, a]) == multiset([a, b]);
  }

  lemma OddOneFourth<T>(a: T, b: T)
    ensures multiset([a, a, a, b, a]) == multiset([a, a, a, a, b])
  {
  }

  lemma ThreeAndTwoMixed<T>(a: T, b: T)
    ensures multiset([b, a, a, b, a]) == multiset([a, a, a, b, b])
  {
  }

  lemma Alternating<T>(a: T, b: T, c: T)
    ensures multiset([c, a, b, a, b]) == multiset([a, a, b, b, c])
  {
  }

  lemma SpreadApart<T>(a: T, b: T, c: T)
    ensures multiset([c, a, c, c, b]) == multiset([a, b, c, c, c])
  {
  }

  lemma PairSecond<T>(a: T, b: T)
    ensures multiset([b, a, a, b, b]) == multiset([a, a, b, b, b])
  {
  }

  // ---------------------------------------------------------------------------
  // royal_flush

  /** Ten, jack, king, ace, queen of suit `s`: a royal flush out of order. */
  function RoyalCards(s: string): seq<Expr> {
    [CardE(s, "10"), CardE(s, "J"), CardE(s, "K"), CardE(s, "A"), CardE(s, "Q")]
  }

  lemma RoyalSteps(s: string)
    ensures Match(Arr([CardOf(S1, RankIs("10")), CardOf(S1, RankIs("J")), CardOf(S1, RankIs("K")),
                       CardOf(S1, RankIs("A")), CardOf(S1, RankIs("Q"))]), L(RoyalCards(s))).Some?
  {
    var p := [CardOf(S1, RankIs("10")), CardOf(S1, RankIs("J")), CardOf(S1, RankIs("K")),
              CardOf(S1, RankIs("A")), CardOf(S1, RankIs("Q"))];
    var es := RoyalCards(s);
    var none: Bindings := map[];
    var b := map["s1" := A(Str(s))];
    MatchTwoElements(S1, RankIs("10"), A(Str(s)), A(Str("10")));
    SubstituteEmpty(p[0]);
    assert b + none == b;
    assert Match(Substitute(none, p[0]), es[0]) == Some(b);
    assert none + b == b;
    assert MatchSeq(p, es, 0, none) == MatchSeq(p, es, 1, b);
    forall j | 1 <= j < 5 ensures Match(Substitute(b, p[j]), es[j]) == Some(map[]) {
      CardSettled(b, S1, p[j].items[1], s, es[j].items[1].atom.s);
    }
    MatchSeqBound(p, es, 1, b);
  }

  /** `royal_flush` takes the five top cards of one suit, here in the order of test.js. */
  lemma RoyalFlushOfSuit(s: string)
    ensures Match(RoyalFlush, L(RoyalCards(s))).Some?
  {
    var p := [CardOf(S1, RankIs("10")), CardOf(S1, RankIs("J")), CardOf(S1, RankIs("K")),
              CardOf(S1, RankIs("A")), CardOf(S1, RankIs("Q"))];
    MovesTwoBack(p[0], p[1], p[4], p[2], p[3]);
    RoyalSteps(s);
    MatchUnorderedVia(RoyalFlushValues, L(RoyalCards(s)), p);
  }

  const RoyalFlushHand :=
    [CardE("diamond", "10"), CardE("diamond", "J"), CardE("diamond", "K"),
     CardE("diamond", "A"), CardE("diamond", "Q")]

  lemma RoyalFlushMatches()
    ensures Match(RoyalFlush, L(RoyalFlushHand)).Some?
  {
    assert RoyalFlushHand == RoyalCards("diamond");
    RoyalFlushOfSuit("diamond");
  }

  /** `e` is a card of rank `r`. */
  predicate HasRank(e: Expr, r: string) {
    e.L? && |e.items| == 2 && e.items[1] == A(Str(r))
  }

  /** Some card of the hand has rank `r`. */
  ghost predicate Held(hand: seq<Expr>, r: string) {
    exists m :: 0 <= m < |hand| && HasRank(hand[m], r)
  }

  /** A card pattern whose rank is the constant `r` fits only cards of rank `r`, whatever
      its suit pattern. */
  lemma FitsRankIs(sp: Pattern, r: string, x: Expr)
    ensures Fits(CardOf(sp, RankIs(r)), x) ==> HasRank(x, r)
  {
    if Fits(CardOf(sp, RankIs(r)), x) {
      var b: Bindings :| Match(Substitute(b, CardOf(sp, RankIs(r))), x).Some?;
      assert SubstituteAll(b, [sp, RankIs(r)]) == [Substitute(b, sp), RankIs(r)];
      MatchArrFits([Substitute(b, sp), RankIs(r)], x);
      var c: Bindings :| Match(Substitute(c, RankIs(r)), x.items[1]).Some?;
      assert Substitute(c, RankIs(r)) == RankIs(r);
    }
  }

  /** An ordering group with a card of constant rank `r` among its values only matches
      arrays holding a card of rank `r`. */
  lemma UnorderedNeedsRank(values: seq<Pattern>, sp: Pattern, r: string, e: Expr)
    requires CardOf(sp, RankIs(r)) in values
    ensures Match(MkUnordered(values), e).Some? ==> e.L? && Held(e.items, r)
  {
    if Match(MkUnordered(values), e).Some? {
      MatchUnorderedRearrangement(values, e);
      var p :| multiset(p) == multiset(values) && Match(Arr(p), e).Some?;
      assert CardOf(sp, RankIs(r)) in multiset(p);
      var j :| 0 <= j < |p| && p[j] == CardOf(sp, RankIs(r));
      MatchArrFits(p, e);
      FitsRankIs(sp, r, e.items[j]);
    }
  }

  /** `royal_flush` only matches hands that hold a ten. */
  lemma RoyalFlushNeedsTen(e: Expr)
    ensures Match(RoyalFlush, e).Some? ==> e.L? && Held(e.items, "10")
  {
    assert RoyalFlushValues[0] == CardOf(S1, RankIs("10"));
    UnorderedNeedsRank(RoyalFlushValues, S1, "10", e);
  }

  const NineHighHand :=
    [CardE("diamond", "9"), CardE("diamond", "J"), CardE("diamond", "K"),
     CardE("diamond", "A"), CardE("diamond", "Q")]

  /** Nine, jack, king, ace, queen of one suit is not a royal flush. */
  lemma RoyalFlushRejectsNineHigh()
    ensures Match(RoyalFlush, L(NineHighHand)).None?
  {
    RoyalFlushNeedsTen(L(NineHighHand));
    forall k | 0 <= k < 5 ensures !HasRank(NineHighHand[k], "10") {
    }
  }

  /** Five cards whose ranks run upwards from rank `i`, counting round from the king back to
      the ace, with the given suits. */
  function Run(suits: seq<string>, i: nat): (hand: seq<Expr>)
    requires |suits| == 5
    ensures |hand| == 5
    ensures forall k :: 0 <= k < 5 ==> hand[k] == CardE(suits[k], Ranks[(i + k) % 13])
  {
    seq(5, k requires 0 <= k < 5 => CardE(suits[k], Ranks[(i + k) % 13]))
  }

  /** After the first card of a run bound `r1` to rank `i`, the four cards above it match
      `FunctionCall(addRank, Variable("r1"), 1)` to `... 4)` with the suit part `sp`. */
  lemma RunSettled(b: Bindings, sp: Pattern, ps: seq<Pattern>, suits: seq<string>, i: nat)
    requires i < 13 && "r1" in b && b["r1"] == A(Str(Ranks[i]))
    requires |ps| == 5 && |suits| == 5 && WellFormed(sp)
    requires forall j :: 1 <= j < 5 ==> ps[j] == CardOf(sp, Above(j))
    requires forall j :: 1 <= j < 5 ==> Match(Substitute(b, sp), A(Str(suits[j]))) == Some(map[])
    ensures MatchSeq(ps, Run(suits, i), 1, b) == Some(b)
  {
    var es := Run(suits, i);
    forall j | 1 <= j < 5 ensures Match(Substitute(b, ps[j]), es[j]) == Some(map[]) {
      AboveSettled(b, i, j);
      CardSettled(b, sp, Above(j), suits[j], Ranks[(i + j) % 13]);
    }
    MatchSeqBound(ps, es, 1, b);
  }

  lemma StraightSteps(suits: seq<string>, i: nat)
    requires |suits| == 5 && i < 13
    ensures Match(Arr(StraightValues), L(Run(suits, i))) == Some(map["r1" := A(Str(Ranks[i]))])
  {
    var p := StraightValues;
    var es := Run(suits, i);
    var none: Bindings := map[];
    var b := map["r1" := A(Str(Ranks[i]))];
    assert i % 13 == i;
    RankFresh(none, "r1", suits[0], Ranks[i]);
    assert none + b == b;
    assert MatchSeq(p, es, 0, none) == MatchSeq(p, es, 1, b);
    RunSettled(b, Wild, p, suits, i);
  }

  /** `straight` matches every run of five ranks, whatever the suits, binding `r1` to the
      lowest rank; the run may go round past the king (J, Q, K, A, 2 counts). */
  lemma StraightOfRun(suits: seq<string>, i: nat)
    requires |suits| == 5 && i < 13
    ensures Match(Straight, L(Run(suits, i))) == Some(map["r1" := A(Str(Ranks[i]))])
  {
    StraightSteps(suits, i);
    MatchUnorderedInOrder(StraightValues, L(Run(suits, i)));
  }

  lemma StraightFlushSteps(s: string, i: nat)
    requires i < 13
    ensures Match(Arr(StraightFlushValues), L(Run([s, s, s, s, s], i))) ==
      Some(map["s1" := A(Str(s)), "r1" := A(Str(Ranks[i]))])
  {
    var b := map["s1" := A(Str(s)), "r1" := A(Str(Ranks[i]))];
    StraightFlushFirst(s, i);
    SuitSettled(b, s);
    RunSettled(b, S1, StraightFlushValues, [s, s, s, s, s], i);
  }

  /** The first card binds the suit and the lowest rank. */
  lemma StraightFlushFirst(s: string, i: nat)
    requires i < 13
    ensures MatchSeq(StraightFlushValues, Run([s, s, s, s, s], i), 0, map[]) ==
      MatchSeq(StraightFlushValues, Run([s, s, s, s, s], i), 1, map["s1" := A(Str(s)), "r1" := A(Str(Ranks[i]))])
  {
    var none: Bindings := map[];
    var b := map["s1" := A(Str(s)), "r1" := A(Str(Ranks[i]))];
    assert i % 13 == i;
    SuitFresh(s, Ranks[i]);
    assert none + b == b;
  }

  /** With `s1` bound to `s`, `Variable("s1")` matches exactly `s` and binds nothing. */
  lemma SuitSettled(b: Bindings, s: string)
    requires "s1" in b && b["s1"] == A(Str(s))
    ensures Match(Substitute(b, S1), A(Str(s))) == Some(map[])
  {
    assert Substitute(b, S1) == Const(Str(s));
  }

  /** `straight_flush` matches every run of five ranks in one suit, binding `s1` to the suit
      and `r1` to the lowest rank. */
  lemma StraightFlushOfRun(s: string, i: nat)
    requires i < 13
    ensures Match(StraightFlush, L(Run([s, s, s, s, s], i))) ==
      Some(map["s1" := A(Str(s)), "r1" := A(Str(Ranks[i]))])
  {
    StraightFlushSteps(s, i);
    MatchUnorderedInOrder(StraightFlushValues, L(Run([s, s, s, s, s], i)));
  }

  /** `flush` matches every five cards of one suit, whatever the ranks, binding `s1`. */
  lemma FlushOfSuit(s: string, ranks: seq<string>)
    requires |ranks| == 5
    ensures Match(Flush, L(seq(5, k requires 0 <= k < 5 => CardE(s, ranks[k])))) ==
      Some(map["s1" := A(Str(s))])
  {
    var p := FlushValues;
    var es := seq(5, k requires 0 <= k < 5 => CardE(s, ranks[k]));
    var none: Bindings := map[];
    var b := map["s1" := A(Str(s))];
    SuitFresh(s, ranks[0]);
    assert none + b == b;
    assert MatchSeq(p, es, 0, none) == MatchSeq(p, es, 1, b);
    forall j | 1 <= j < 5 ensures Match(Substitute(b, p[j]), es[j]) == Some(map[]) {
      CardSettled(b, S1, Wild, s, ranks[j]);
    }
    MatchSeqBound(p, es, 1, b);
    MatchUnorderedInOrder(p, L(es));
  }

  const StraightFlushHand :=
    [CardE("diamond", "2"), CardE("diamond", "3"), CardE("diamond", "4"),
     CardE("diamond", "5"), CardE("diamond", "6")]

  lemma StraightFlushMatches()
    ensures Match(StraightFlush, L(StraightFlushHand)) ==
      Some(map["s1" := A(Str("diamond")), "r1" := A(Str("2"))])
  {
    var d := "diamond";
    assert StraightFlushHand == Run([d, d, d, d, d], 1);
    StraightFlushOfRun(d, 1);
  }

  // ---------------------------------------------------------------------------
  // four_of_a_kind

  /** Three cards of rank `r`, any card `x`, and a fourth card of rank `r`. */
  function FourCards(suits: seq<string>, r: string, x: Expr): seq<Expr>
    requires |suits| == 5
  {
    [CardE(suits[0], r), CardE(suits[1], r), CardE(suits[2], r), x, CardE(suits[4], r)]
  }

  lemma FourSteps(suits: seq<string>, r: string, x: Expr)
    requires |suits| == 5
    ensures Match(Arr([CardOf(Wild, R1), CardOf(Wild, R1), CardOf(Wild, R1), Wild, CardOf(Wild, R1)]),
                     L(FourCards(suits, r, x))) == Some(map["r1" := A(Str(r))])
  {
    var v := CardOf(Wild, R1);
    var p := [v, v, v, Wild, v];
    var es := FourCards(suits, r, x);
    var none: Bindings := map[];
    var b := map["r1" := A(Str(r))];
    RankFresh(none, "r1", suits[0], r);
    assert none + b == b;
    assert MatchSeq(p, es, 0, none) == MatchSeq(p, es, 1, b);
    forall j | 1 <= j < 5 ensures Match(Substitute(b, p[j]), es[j]) == Some(map[]) {
      if j != 3 {
        CardSettled(b, Wild, R1, suits[j], r);
      }
    }
    MatchSeqBound(p, es, 1, b);
  }

  /** `four_of_a_kind` takes four cards of one rank and any fifth card. */
  lemma FourOfAKindOfRank(suits: seq<string>, r: string, x: Expr)
    requires |suits| == 5
    ensures Match(FourOfAKind, L(FourCards(suits, r, x))).Some?
  {
    var v := CardOf(Wild, R1);
    OddOneFourth(v, Wild);
    FourSteps(suits, r, x);
    MatchUnorderedVia(FourOfAKindValues, L(FourCards(suits, r, x)), [v, v, v, Wild, v]);
  }

  const FourOfAKindHand :=
    [CardE("heart", "5"), CardE("spade", "5"), CardE("diamond", "5"),
     CardE("spade", "A"), CardE("club", "5")]

  lemma FourOfAKindMatches()
    ensures Match(FourOfAKind, L(FourOfAKindHand)).Some?
  {
    assert FourOfAKindHand == FourCards(["heart", "spade", "diamond", "", "club"], "5", CardE("spade", "A"));
    FourOfAKindOfRank(["heart", "spade", "diamond", "", "club"], "5", CardE("spade", "A"));
  }

  // ---------------------------------------------------------------------------
  // full_house

  /** Rank `c`, rank `a` twice, rank `c`, rank `a`: three of `a` and two of `c`. */
  function FullHouseCards(suits: seq<string>, a: string, c: string): seq<Expr>
    requires |suits| == 5
  {
    [CardE(suits[0], c), CardE(suits[1], a), CardE(suits[2], a), CardE(suits[3], c), CardE(suits[4], a)]
  }

  lemma FullHouseSteps(suits: seq<string>, a: string, c: string)
    requires |suits| == 5
    ensures Match(Arr([CardOf(Wild, R2), CardOf(Wild, R1), CardOf(Wild, R1), CardOf(Wild, R2), CardOf(Wild, R1)]),
                     L(FullHouseCards(suits, a, c))).Some?
  {
    var v1, v2 := CardOf(Wild, R1), CardOf(Wild, R2);
    var p := [v2, v1, v1, v2, v1];
    var es := FullHouseCards(suits, a, c);
    var none: Bindings := map[];
    var bc := map["r2" := A(Str(c))];
    var b := bc + map["r1" := A(Str(a))];
    RankFresh(none, "r2", suits[0], c);
    assert none + bc == bc;
    assert MatchSeq(p, es, 0, none) == MatchSeq(p, es, 1, bc);
    RankFresh(bc, "r1", suits[1], a);
    assert MatchSeq(p, es, 1, bc) == MatchSeq(p, es, 2, b);
    CardSettled(b, Wild, R1, suits[2], a);
    CardSettled(b, Wild, R2, suits[3], c);
    CardSettled(b, Wild, R1, suits[4], a);
    MatchSeqBound(p, es, 2, b);
  }

  /** `full_house` takes three cards of one rank and two of another, here in the order of
      test.js. */
  lemma FullHouseOfRanks(suits: seq<string>, a: string, c: string)
    requires |suits| == 5
    ensures Match(FullHouse, L(FullHouseCards(suits, a, c))).Some?
  {
    var v1, v2 := CardOf(Wild, R1), CardOf(Wild, R2);
    ThreeAndTwoMixed(v1, v2);
    FullHouseSteps(suits, a, c);
    MatchUnorderedVia(FullHouseValues, L(FullHouseCards(suits, a, c)), [v2, v1, v1, v2, v1]);
  }

  const FullHouseHand :=
    [CardE("heart", "A"), CardE("spade", "5"), CardE("diamond", "5"),
     CardE("spade", "A"), CardE("club", "5")]

  lemma FullHouseMatches()
    ensures Match(FullHouse, L(FullHouseHand)).Some?
  {
    assert FullHouseHand == FullHouseCards(["heart", "spade", "diamond", "spade", "club"], "5", "A");
    FullHouseOfRanks(["heart", "spade", "diamond", "spade", "club"], "5", "A");
  }

  const FlushHand :=
    [CardE("spade", "2"), CardE("spade", "3"), CardE("spade", "4"),
     CardE("spade", "5"), CardE("spade", "6")]

  lemma FlushMatches()
    ensures Match(Flush, L(FlushHand)) == Some(map["s1" := A(Str("spade"))])
  {
    var ranks := ["2", "3", "4", "5", "6"];
    assert FlushHand == seq(5, k requires 0 <= k < 5 => CardE("spade", ranks[k]));
    FlushOfSuit("spade", ranks);
  }

  const StraightHand :=
    [CardE("spade", "2"), CardE("hearth", "3"), CardE("spade", "4"),
     CardE("diamond", "5"), CardE("diamond", "6")]

  lemma StraightMatches()
    ensures Match(Straight, L(StraightHand)) == Some(map["r1" := A(Str("2"))])
  {
    assert StraightHand == Run(["spade", "hearth", "spade", "diamond", "diamond"], 1);
    StraightOfRun(["spade", "hearth", "spade", "diamond", "diamond"], 1);
  }

  // ---------------------------------------------------------------------------
  // three_of_a_kind

  /** Any card `x`, two cards of rank `r`, any card `y`, a third card of rank `r`. */
  function ThreeCards(suits: seq<string>, r: string, x: Expr, y: Expr): seq<Expr>
    requires |suits| == 5
  {
    [x, CardE(suits[1], r), CardE(suits[2], r), y, CardE(suits[4], r)]
  }

  lemma ThreeSteps(suits: seq<string>, r: string, x: Expr, y: Expr)
    requires |suits| == 5
    ensures Match(Arr([Wild, CardOf(Wild, R1), CardOf(Wild, R1), Wild, CardOf(Wild, R1)]),
                     L(ThreeCards(suits, r, x, y))) == Some(map["r1" := A(Str(r))])
  {
    var v := CardOf(Wild, R1);
    var p := [Wild, v, v, Wild, v];
    var es := ThreeCards(suits, r, x, y);
    var none: Bindings := map[];
    var b := map["r1" := A(Str(r))];
    WildStep(p, es, 0, none);
    RankFresh(none, "r1", suits[1], r);
    assert none + b == b;
    assert MatchSeq(p, es, 1, none) == MatchSeq(p, es, 2, b);
    forall j | 2 <= j < 5 ensures Match(Substitute(b, p[j]), es[j]) == Some(map[]) {
      if j != 3 {
        CardSettled(b, Wild, R1, suits[j], r);
      }
    }
    MatchSeqBound(p, es, 2, b);
  }

  /** `three_of_a_kind` takes three cards of one rank and any two others. */
  lemma ThreeOfAKindOfRank(suits: seq<string>, r: string, x: Expr, y: Expr)
    requires |suits| == 5
    ensures Match(ThreeOfAKind, L(ThreeCards(suits, r, x, y))).Some?
  {
    var v := CardOf(Wild, R1);
    ThreeAndTwoMixed(v, Wild);
    ThreeSteps(suits, r, x, y);
    MatchUnorderedVia(ThreeOfAKindValues, L(ThreeCards(suits, r, x, y)), [Wild, v, v, Wild, v]);
  }

  const ThreeOfAKindHand :=
    [CardE("heart", "A"), CardE("spade", "5"), CardE("diamond", "5"),
     CardE("heart", "3"), CardE("club", "5")]

  lemma ThreeOfAKindMatches()
    ensures Match(ThreeOfAKind, L(ThreeOfAKindHand)).Some?
  {
    assert ThreeOfAKindHand ==
      ThreeCards(["", "spade", "diamond", "", "club"], "5", CardE("heart", "A"), CardE("heart", "3"));
    ThreeOfAKindOfRank(["", "spade", "diamond", "", "club"], "5", CardE("heart", "A"), CardE("heart", "3"));
  }

  // ---------------------------------------------------------------------------
  // two_pairs

  /** Any card `x`, then ranks `a`, `c`, `a`, `c`. */
  function TwoPairsCards(suits: seq<string>, a: string, c: string, x: Expr): seq<Expr>
    requires |suits| == 5
  {
    [x, CardE(suits[1], a), CardE(suits[2], c), CardE(suits[3], a), CardE(suits[4], c)]
  }

  lemma TwoPairsSteps(suits: seq<string>, a: string, c: string, x: Expr)
    requires |suits| == 5
    ensures Match(Arr([Wild, CardOf(Wild, R1), CardOf(Wild, R2), CardOf(Wild, R1), CardOf(Wild, R2)]),
                     L(TwoPairsCards(suits, a, c, x))).Some?
  {
    var p := [Wild, CardOf(Wild, R1), CardOf(Wild, R2), CardOf(Wild, R1), CardOf(Wild, R2)];
    var es := TwoPairsCards(suits, a, c, x);
    var none: Bindings := map[];
    var ba := map["r1" := A(Str(a))];
    var b := ba + map["r2" := A(Str(c))];
    WildStep(p, es, 0, none);
    RankFresh(none, "r1", suits[1], a);
    assert none + ba == ba;
    assert MatchSeq(p, es, 1, none) == MatchSeq(p, es, 2, ba);
    RankFresh(ba, "r2", suits[2], c);
    assert MatchSeq(p, es, 2, ba) == MatchSeq(p, es, 3, b);
    CardSettled(b, Wild, R1, suits[3], a);
    CardSettled(b, Wild, R2, suits[4], c);
    MatchSeqBound(p, es, 3, b);
  }

  /** `two_pairs` takes two pairs and any fifth card, here in the order of test.js. */
  lemma TwoPairsOfRanks(suits: seq<string>, a: string, c: string, x: Expr)
    requires |suits| == 5
    ensures Match(TwoPairs, L(TwoPairsCards(suits, a, c, x))).Some?
  {
    var v1, v2 := CardOf(Wild, R1), CardOf(Wild, R2);
    Alternating(v1, v2, Wild);
    TwoPairsSteps(suits, a, c, x);
    MatchUnorderedVia(TwoPairsValues, L(TwoPairsCards(suits, a, c, x)), [Wild, v1, v2, v1, v2]);
  }

  const TwoPairsHand :=
    [CardE("spade", "8"), CardE("heart", "3"), CardE("spade", "Q"),
     CardE("club", "3"), CardE("heart", "Q")]

  lemma TwoPairsMatches()
    ensures Match(TwoPairs, L(TwoPairsHand)).Some?
  {
    assert TwoPairsHand == TwoPairsCards(["", "heart", "spade", "club", "heart"], "3", "Q", CardE("spade", "8"));
    TwoPairsOfRanks(["", "heart", "spade", "club", "heart"], "3", "Q", CardE("spade", "8"));
  }

  // ---------------------------------------------------------------------------
  // jacks_or_better

  /** `Capture("r1", Any("J", "Q", "K", "A"))`, the rank part of the first card of
      `jacks_or_better`. */
  const HighRank := Capture("r1", Any(HighRankAlternatives))

  /** The jack, queen, king or ace. */
  function HighRankAt(i: nat): string
    requires i < 4
  {
    HighRankAlternatives[i].atom.s
  }

  lemma HighRankFixed(b: Bindings)
    ensures Substitute(b, CardOf(Wild, HighRank)) == CardOf(Wild, HighRank)
  {
    assert SubstituteAll(b, HighRankAlternatives) == HighRankAlternatives;
    assert Substitute(b, HighRank) == HighRank;
    assert SubstituteAll(b, [Wild, HighRank]) == [Wild, HighRank];
  }

  lemma MatchHighRank(i: nat)
    requires i < 4
    ensures Match(HighRank, A(Str(HighRankAt(i)))) == Some(map["r1" := A(Str(HighRankAt(i)))])
  {
    var r := HighRankAt(i);
    MatchAny(HighRankAlternatives, A(Str(r)));
    assert Match(HighRankAlternatives[i], A(Str(r))).Some?;
    MatchCapture("r1", Any(HighRankAlternatives), A(Str(r)));
  }

  /** The capture of `Any("J", "Q", "K", "A")` takes a high rank and binds the rank it met;
      it ignores the bindings made before it, even one already made for `r1`. */
  lemma HighRankCaptured(b: Bindings, s: string, i: nat)
    requires i < 4
    ensures Match(Substitute(b, CardOf(Wild, HighRank)), CardE(s, HighRankAt(i)))
      == Some(map["r1" := A(Str(HighRankAt(i)))])
  {
    var none: Bindings := map[];
    var r := HighRankAt(i);
    HighRankFixed(b);
    MatchTwoElements(Wild, HighRank, A(Str(s)), A(Str(r)));
    SubstituteEmpty(HighRank);
    MatchHighRank(i);
    assert none + map["r1" := A(Str(r))] == map["r1" := A(Str(r))];
  }

  /** Any card `x`, a card of high rank, any cards `y` and `z`, a second card of that rank. */
  function JacksCards(suits: seq<string>, i: nat, x: Expr, y: Expr, z: Expr): seq<Expr>
    requires |suits| == 5 && i < 4
  {
    [x, CardE(suits[1], HighRankAt(i)), y, z, CardE(suits[4], HighRankAt(i))]
  }

  lemma JacksSteps(suits: seq<string>, i: nat, x: Expr, y: Expr, z: Expr)
    requires |suits| == 5 && i < 4
    ensures Match(Arr([Wild, CardOf(Wild, HighRank), Wild, Wild, CardOf(Wild, R1)]),
                     L(JacksCards(suits, i, x, y, z))).Some?
  {
    var p := [Wild, CardOf(Wild, HighRank), Wild, Wild, CardOf(Wild, R1)];
    var es := JacksCards(suits, i, x, y, z);
    var none: Bindings := map[];
    var b := map["r1" := A(Str(HighRankAt(i)))];
    WildStep(p, es, 0, none);
    HighRankCaptured(none, suits[1], i);
    assert none + b == b;
    assert MatchSeq(p, es, 1, none) == MatchSeq(p, es, 2, b);
    CardSettled(b, Wild, R1, suits[4], HighRankAt(i));
    MatchSeqBound(p, es, 2, b);
  }

  /** `jacks_or_better` takes a pair of jacks or better among any other cards, here in the
      order of test.js. */
  lemma JacksOrBetterOfPair(suits: seq<string>, i: nat, x: Expr, y: Expr, z: Expr)
    requires |suits| == 5 && i < 4
    ensures Match(JacksOrBetter, L(JacksCards(suits, i, x, y, z))).Some?
  {
    var e1, e2 := CardOf(Wild, HighRank), CardOf(Wild, R1);
    assert JacksOrBetterValues == [e1, e2, Wild, Wild, Wild];
    SpreadApart(e1, e2, Wild);
    JacksSteps(suits, i, x, y, z);
    MatchUnorderedVia(JacksOrBetterValues, L(JacksCards(suits, i, x, y, z)), [Wild, e1, Wild, Wild, e2]);
  }

  const JacksOrBetterHand :=
    [CardE("spade", "J"), CardE("hearth", "K"), CardE("diamond", "5"),
     CardE("club", "3"), CardE("diamond", "K")]

  lemma JacksOrBetterMatches()
    ensures Match(JacksOrBetter, L(JacksOrBetterHand)).Some?
  {
    assert HighRankAt(2) == "K";
    assert JacksOrBetterHand == JacksCards(["", "hearth", "", "", "diamond"], 2, CardE("spade", "J"),
                                           CardE("diamond", "5"), CardE("club", "3"));
    JacksOrBetterOfPair(["", "hearth", "", "", "diamond"], 2, CardE("spade", "J"), CardE("diamond", "5"),
                        CardE("club", "3"));
  }

  // ---------------------------------------------------------------------------
  // pair

  /** Any card `x`, two cards of rank `r`, any cards `y` and `z`. */
  function PairCards(suits: seq<string>, r: string, x: Expr, y: Expr, z: Expr): seq<Expr>
    requires |suits| == 5
  {
    [x, CardE(suits[1], r), CardE(suits[2], r), y, z]
  }

  lemma PairSteps(suits: seq<string>, r: string, x: Expr, y: Expr, z: Expr)
    requires |suits| == 5
    ensures Match(Arr([Wild, CardOf(Wild, R1), CardOf(Wild, R1), Wild, Wild]),
                     L(PairCards(suits, r, x, y, z))) == Some(map["r1" := A(Str(r))])
  {
    var v := CardOf(Wild, R1);
    var p := [Wild, v, v, Wild, Wild];
    var es := PairCards(suits, r, x, y, z);
    var none: Bindings := map[];
    var b := map["r1" := A(Str(r))];
    WildStep(p, es, 0, none);
    RankFresh(none, "r1", suits[1], r);
    assert none + b == b;
    assert MatchSeq(p, es, 1, none) == MatchSeq(p, es, 2, b);
    forall j | 2 <= j < 5 ensures Match(Substitute(b, p[j]), es[j]) == Some(map[]) {
      if j == 2 {
        CardSettled(b, Wild, R1, suits[2], r);
      }
    }
    MatchSeqBound(p, es, 2, b);
  }

  /** `pair` takes two cards of one rank among any other cards. */
  lemma PairOfRank(suits: seq<string>, r: string, x: Expr, y: Expr, z: Expr)
    requires |suits| == 5
    ensures Match(Pair, L(PairCards(suits, r, x, y, z))).Some?
  {
    var v := CardOf(Wild, R1);
    PairSecond(v, Wild);
    PairSteps(suits, r, x, y, z);
    MatchUnorderedVia(PairValues, L(PairCards(suits, r, x, y, z)), [Wild, v, v, Wild, Wild]);
  }

  const PairHand :=
    [CardE("spade", "J"), CardE("hearth", "5"), CardE("diamond", "5"),
     CardE("club", "3"), CardE("diamond", "K")]

  lemma PairMatches()
    ensures Match(Pair, L(PairHand)).Some?
  {
    assert PairHand == PairCards(["", "hearth", "diamond", "", ""], "5", CardE("spade", "J"),
                                 CardE("club", "3"), CardE("diamond", "K"));
    PairOfRank(["", "hearth", "diamond", "", ""], "5", CardE("spade", "J"), CardE("club", "3"),
               CardE("diamond", "K"));
  }
}
