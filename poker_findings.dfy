/** `jacks_or_better` as written accepts hands without any pair; a pattern that asks for a
    pair of jacks, queens, kings or aces, and the proof that it asks for exactly that. */
module PokerFindings {
  import opened Wrappers
  import opened Matcher
  import opened MatchFacts
  import opened Poker
  import opened PokerHands
  import Permute

  /** The ranks of `jacks_or_better`'s alternatives: jack, queen, king, ace. */
  const HighRanks: seq<string> := [HighRankAt(0), HighRankAt(1), HighRankAt(2), HighRankAt(3)]

  /** Two different cards of the hand share the rank `r`. */
  predicate PairIn(hand: seq<Expr>, r: string) {
    exists i, j :: 0 <= i < j < |hand| && HasRank(hand[i], r) && HasRank(hand[j], r)
  }

  /** The hand holds a pair of one of the ranks `ranks`. */
  predicate PairAmong(hand: seq<Expr>, ranks: seq<string>) {
    exists t :: 0 <= t < |ranks| && PairIn(hand, ranks[t])
  }

  /** The hand holds a pair of jacks, queens, kings or aces. */
  predicate HighPairIn(hand: seq<Expr>) {
    PairAmong(hand, HighRanks)
  }

  /** No two cards of the hand share a rank. */
  ghost predicate NoPairIn(hand: seq<Expr>) {
    forall r :: !PairIn(hand, r)
  }

  // ---------------------------------------------------------------------------
  // As written

  const HighCardHand :=
    [CardE("heart", "2"), CardE("spade", "J"), CardE("diamond", "5"),
     CardE("club", "3"), CardE("diamond", "7")]

  /** Tried first as `[[_, r1], [_, Capture("r1", Any(...))], _, _, _]`, the group lets the
      plain variable bind `r1` to the two, and the capture then overwrites `r1` with the
      jack instead of checking it: the hand 2, J, 5, 3, 7, which holds no pair at all, is
      taken for jacks or better. */
  lemma JacksOrBetterAcceptsNoPair()
    ensures NoPairIn(HighCardHand) && !HighPairIn(HighCardHand)
    ensures Match(JacksOrBetter, L(HighCardHand)).Some?
  {
    HighCardHandHasNoPair();
    assert HighRankAt(0) == "J";
    assert HighCardHand == HighCardCards(["heart", "spade", "", "", ""], "2", 0, CardE("diamond", "5"),
                                         CardE("club", "3"), CardE("diamond", "7"));
    JacksOrBetterTakesHighCard(["heart", "spade", "", "", ""], "2", 0, CardE("diamond", "5"),
                               CardE("club", "3"), CardE("diamond", "7"));
  }

  lemma HighCardHandHasNoPair()
    ensures NoPairIn(HighCardHand)
  {
    var es := HighCardHand;
    forall r ensures !PairIn(es, r) {
      if i, j :| 0 <= i < j < |es| && HasRank(es[i], r) && HasRank(es[j], r) {
        assert false;
      }
    }
  }

  /** A card of any rank `r`, then a card of high rank, then any three cards. */
  function HighCardCards(suits: seq<string>, r: string, i: nat, x: Expr, y: Expr, z: Expr): seq<Expr>
    requires |suits| == 5 && i < 4
  {
    [CardE(suits[0], r), CardE(suits[1], HighRankAt(i)), x, y, z]
  }

  lemma HighCardSteps(suits: seq<string>, r: string, i: nat, x: Expr, y: Expr, z: Expr)
    requires |suits| == 5 && i < 4
    ensures Match(Arr([CardOf(Wild, R1), CardOf(Wild, HighRank), Wild, Wild, Wild]),
                  L(HighCardCards(suits, r, i, x, y, z))).Some?
  {
    var p := [CardOf(Wild, R1), CardOf(Wild, HighRank), Wild, Wild, Wild];
    var es := HighCardCards(suits, r, i, x, y, z);
    var none: Bindings := map[];
    var a := map["r1" := A(Str(r))];
    var b := map["r1" := A(Str(HighRankAt(i)))];
    RankFresh(none, "r1", suits[0], r);
    assert none + a == a;
    assert MatchSeq(p, es, 0, none) == MatchSeq(p, es, 1, a);
    HighRankCaptured(a, suits[1], i);
    assert a + b == b;
    assert MatchSeq(p, es, 1, a) == MatchSeq(p, es, 2, b);
    WildStep(p, es, 2, b);
    WildStep(p, es, 3, b);
    WildStep(p, es, 4, b);
  }

  /** Every hand whose second card is a jack or better matches `jacks_or_better`, whatever
      the other four cards are. */
  lemma JacksOrBetterTakesHighCard(suits: seq<string>, r: string, i: nat, x: Expr, y: Expr, z: Expr)
    requires |suits| == 5 && i < 4
    ensures Match(JacksOrBetter, L(HighCardCards(suits, r, i, x, y, z))).Some?
  {
    var e1, e2 := CardOf(Wild, HighRank), CardOf(Wild, R1);
    assert JacksOrBetterValues == [e1, e2, Wild, Wild, Wild];
    SwapsFirstTwo(e1, e2, Wild, Wild, Wild);
    HighCardSteps(suits, r, i, x, y, z);
    MatchUnorderedVia(JacksOrBetterValues, L(HighCardCards(suits, r, i, x, y, z)), [e2, e1, Wild, Wild, Wild]);
  }

  // ---------------------------------------------------------------------------
  // As intended: a pair of jacks, queens, kings or aces

  /** `[wildcard, r]`: a card of rank `r`. */
  function CardOfRank(r: string): Pattern { CardOf(Wild, RankIs(r)) }

  function PairOfValues(r: string): seq<Pattern> {
    [CardOfRank(r), CardOfRank(r), Wild, Wild, Wild]
  }

  /** `Unordered([_, r], [_, r], _, _, _)`: a pair of rank `r`. */
  function PairOf(r: string): Pattern { MkUnordered(PairOfValues(r)) }

  /** `Any(pairOf(r), ...)` over the ranks `ranks`. */
  function PairsOf(ranks: seq<string>): Pattern {
    Any(seq(|ranks|, t requires 0 <= t < |ranks| => PairOf(ranks[t])))
  }

  /** `Any(pairOf("J"), pairOf("Q"), pairOf("K"), pairOf("A"))`. */
  const JacksOrBetterPair := PairsOf(HighRanks)

  lemma CardOfRankFixed(b: Bindings, r: string)
    ensures Substitute(b, CardOfRank(r)) == CardOfRank(r)
  {
    assert SubstituteAll(b, [Wild, RankIs(r)]) == [Wild, RankIs(r)];
  }

  /** A card pattern of rank `r` matches exactly the cards of rank `r`. */
  lemma MatchCardOfRank(r: string, e: Expr)
    ensures Fits(CardOfRank(r), e) ==> HasRank(e, r)
    ensures HasRank(e, r) ==> Match(CardOfRank(r), e).Some?
  {
    if Fits(CardOfRank(r), e) {
      var b: Bindings :| Match(Substitute(b, CardOfRank(r)), e).Some?;
      CardOfRankFixed(b, r);
      MatchArrFits([Wild, RankIs(r)], e);
      assert Fits(RankIs(r), e.items[1]);
    }
    if HasRank(e, r) {
      MatchTwoElements(Wild, RankIs(r), e.items[0], e.items[1]);
      assert e == L([e.items[0], e.items[1]]);
    }
  }

  /** A value that occurs twice sits at two different positions. */
  lemma {:induction false} TwoPositions<T>(p: seq<T>, x: T)
    requires multiset(p)[x] >= 2
    ensures exists i, j :: 0 <= i < j < |p| && p[i] == x && p[j] == x
  {
    assert p == [p[0]] + p[1..];
    if p[0] == x {
      assert x in multiset(p[1..]);
      var j :| 0 <= j < |p[1..]| && p[1..][j] == x;
      assert p[0] == x && p[j + 1] == x;
    } else {
      TwoPositions(p[1..], x);
      var i, j :| 0 <= i < j < |p[1..]| && p[1..][i] == x && p[1..][j] == x;
      assert p[i + 1] == x && p[j + 1] == x;
    }
  }

  lemma PairOfValuesCount(r: string)
    ensures multiset(PairOfValues(r))[CardOfRank(r)] == 2
  {
    var c := CardOfRank(r);
    assert PairOfValues(r) == [c, c] + [Wild, Wild, Wild];
  }

  /** A match of `PairOf(r)` is a five-card hand with two cards of rank `r`. */
  lemma PairOfSound(r: string, e: Expr)
    requires Match(PairOf(r), e).Some?
    ensures e.L? && |e.items| == 5 && PairIn(e.items, r)
  {
    var values := PairOfValues(r);
    MatchUnorderedRearrangement(values, e);
    var p :| multiset(p) == multiset(values) && Match(Arr(p), e).Some?;
    PairOfValuesCount(r);
    PairInArr(r, p, e);
  }

  /** An array pattern holding the card pattern of rank `r` twice only matches hands with
      two cards of rank `r`. */
  lemma PairInArr(r: string, p: seq<Pattern>, e: Expr)
    requires multiset(p)[CardOfRank(r)] >= 2 && Match(Arr(p), e).Some?
    ensures e.L? && |e.items| == |p| && PairIn(e.items, r)
  {
    var c := CardOfRank(r);
    MatchArrFits(p, e);
    TwoPositions(p, c);
    var i, j :| 0 <= i < j < |p| && p[i] == c && p[j] == c;
    MatchCardOfRank(r, e.items[i]);
    MatchCardOfRank(r, e.items[j]);
  }

  /** Five values, the first two alike and the last three alike, can be rearranged so that
      the first kind sits at positions `i < j` and the second kind everywhere else. */
  lemma TwoAtPositions<T>(values: seq<T>, i: nat, j: nat) returns (p: seq<T>)
    requires i < j < 5 && |values| == 5
    requires values[1] == values[0] && values[2] == values[4] && values[3] == values[4]
    ensures multiset(p) == multiset(values)
    ensures |p| == 5 && forall k :: 0 <= k < 5 ==> p[k] == if k == i || k == j then values[0] else values[4]
  {
    var a, b := values[0], values[4];
    assert forall k :: 0 <= k < 5 ==> values[k] == if k < 2 then a else b;
    var q := SwapAt(values, 1, j);
    assert forall k :: 0 <= k < 5 ==> q[k] == if k == 0 || k == j then a else b;
    p := SwapAt(q, 0, i);
  }

  /** Exchanging two positions keeps the values. */
  lemma SwapAt<T>(s: seq<T>, x: nat, y: nat) returns (q: seq<T>)
    requires x < |s| && y < |s|
    ensures multiset(q) == multiset(s) && |q| == |s|
    ensures forall k :: 0 <= k < |s| ==> q[k] == if k == x then s[y] else if k == y then s[x] else s[k]
  {
    q := s[x := s[y]][y := s[x]];
    Permute.SwapMultiset(s, x, y);
  }

  /** Every five-card hand with two cards of rank `r` matches `PairOf(r)`. */
  lemma PairOfComplete(r: string, e: Expr)
    requires e.L? && |e.items| == 5 && PairIn(e.items, r)
    ensures Match(PairOf(r), e).Some?
  {
    var i, j :| 0 <= i < j < 5 && HasRank(e.items[i], r) && HasRank(e.items[j], r);
    var p := TwoAtPositions(PairOfValues(r), i, j);
    forall k, b: Bindings | 0 <= k < 5 ensures Substitute(b, p[k]) == p[k] {
      CardOfRankFixed(b, r);
    }
    forall k | 0 <= k < 5 ensures Match(p[k], e.items[k]).Some? {
      MatchCardOfRank(r, e.items[k]);
    }
    MatchArrOfFixed(p, e);
    MatchUnorderedVia(PairOfValues(r), e, p);
  }

  /** `PairOf(r)` matches exactly the five-card hands with two cards of rank `r`. */
  lemma PairOfSpec(r: string, e: Expr)
    ensures Match(PairOf(r), e).Some? <==> e.L? && |e.items| == 5 && PairIn(e.items, r)
  {
    if Match(PairOf(r), e).Some? {
      PairOfSound(r, e);
    }
    if e.L? && |e.items| == 5 && PairIn(e.items, r) {
      PairOfComplete(r, e);
    }
  }

  /** A choice among pairs accepts exactly the five-card hands holding a pair of one of its
      ranks, and it binds nothing. */
  lemma PairsOfSpec(ranks: seq<string>, e: Expr)
    ensures Match(PairsOf(ranks), e).Some? <==> e.L? && |e.items| == 5 && PairAmong(e.items, ranks)
    ensures Match(PairsOf(ranks), e).Some? ==> Match(PairsOf(ranks), e).value == map[]
  {
    var alts := seq(|ranks|, t requires 0 <= t < |ranks| => PairOf(ranks[t]));
    MatchAny(alts, e);
    forall t | 0 <= t < |ranks| {
      PairOfSpec(ranks[t], e);
    }
    if Match(PairsOf(ranks), e).Some? {
      var t :| 0 <= t < |ranks| && Match(PairsOf(ranks), e) == Match(alts[t], e);
      assert PairIn(e.items, ranks[t]);
      PairOfGround(ranks[t], e);
    }
    if e.L? && |e.items| == 5 && PairAmong(e.items, ranks) {
      var t :| 0 <= t < |ranks| && PairIn(e.items, ranks[t]);
      assert Match(alts[t], e).Some?;
    }
  }

  /** The corrected pattern accepts exactly the five-card hands holding a pair of jacks or
      better, and it binds nothing. */
  lemma JacksOrBetterPairSpec(e: Expr)
    ensures Match(JacksOrBetterPair, e).Some? <==> e.L? && |e.items| == 5 && HighPairIn(e.items)
    ensures Match(JacksOrBetterPair, e).Some? ==> Match(JacksOrBetterPair, e).value == map[]
  {
    PairsOfSpec(HighRanks, e);
  }

  lemma PairOfGround(r: string, e: Expr)
    ensures Match(PairOf(r), e).Some? ==> Match(PairOf(r), e).value == map[]
  {
    MkUnorderedGround(PairOfValues(r));
    MatchGround(PairOf(r), e);
  }

  /** The corrected pattern turns the high-card hand away. */
  lemma JacksOrBetterPairRejectsHighCard()
    ensures Match(JacksOrBetterPair, L(HighCardHand)).None?
  {
    HighCardHandHasNoPair();
    JacksOrBetterPairSpec(L(HighCardHand));
  }

  /** The corrected pattern still takes the hand of test.js, which holds a pair of kings. */
  lemma JacksOrBetterPairAcceptsTestHand()
    ensures Match(JacksOrBetterPair, L(JacksOrBetterHand)).Some?
  {
    var es := JacksOrBetterHand;
    assert HasRank(es[1], "K") && HasRank(es[4], "K");
    assert PairIn(es, HighRanks[2]);
    JacksOrBetterPairSpec(L(es));
  }

  // ---------------------------------------------------------------------------
  // straight, as written: an addRank call tried before `r1` is bound

  /** Every rank of the run starting at rank `i` is held by some card of the hand. */
  ghost predicate HoldsRun(hand: seq<Expr>, i: nat) {
    forall k :: 0 <= k < 5 ==> Held(hand, RunRank(i, k))
  }

  /** The rank `k` places above rank `i`, counting round. */
  function RunRank(i: nat, k: nat): string { Ranks[(i + k) % 13] }

  /** The hand holds five ranks in a row, counting round from the king back to the ace. */
  ghost predicate HoldsSomeRun(hand: seq<Expr>) {
    exists i :: 0 <= i < 13 && HoldsRun(hand, i)
  }

  const GapHand :=
    [CardE("heart", "A"), CardE("spade", "2"), CardE("diamond", "4"),
     CardE("club", "5"), CardE("diamond", "6")]

  lemma GapHandHoldsNoRun()
    ensures !HoldsSomeRun(GapHand)
  {
    forall i | 0 <= i < 13 ensures !HoldsRun(GapHand, i) {
      var k := if i <= 2 then 2 - i else if i <= 5 then 6 - i else 0;
      GapHandRanks(RunRank(i, k));
    }
  }

  /** The ranks the hand holds: ace, two, four, five and six. */
  lemma GapHandRanks(r: string)
    ensures Held(GapHand, r) ==> r == "A" || r == "2" || r == "4" || r == "5" || r == "6"
  {
  }

  /** With `r1` unbound, `FunctionCall(addRank, Variable("r1"), n)` reads the rank `n - 1`
      places above the ace. */
  lemma AboveUnbound(b: Bindings, n: nat)
    requires "r1" !in b && 1 <= n
    ensures Match(Substitute(b, Above(n)), A(Str(Ranks[(n - 1) % 13]))) == Some(map[])
  {
    assert Substitute(b, Above(n)) == Above(n);
    CallTargetOfNonRank(Ranks, R1, n);
  }

  lemma UnboundAboveCard(b: Bindings, n: nat, s: string)
    requires "r1" !in b && 1 <= n
    ensures Match(Substitute(b, CardOf(Wild, Above(n))), CardE(s, Ranks[(n - 1) % 13])) == Some(map[])
  {
    AboveUnbound(b, n);
    CardSettled(b, Wild, Above(n), s, Ranks[(n - 1) % 13]);
  }

  /** An ace, then ranks `i`, `i + 2`, `i + 3` and `i + 4`: a run with its second rank
      replaced by the ace. */
  function AceGap(suits: seq<string>, i: nat): (hand: seq<Expr>)
    requires |suits| == 5
    ensures |hand| == 5 && hand[0] == CardE(suits[0], "A") && hand[1] == CardE(suits[1], Ranks[i % 13])
    ensures forall k :: 2 <= k < 5 ==> hand[k] == CardE(suits[k], Ranks[(i + k) % 13])
  {
    seq(5, k requires 0 <= k < 5 =>
      if k == 0 then CardE(suits[0], "A") else CardE(suits[k], Ranks[(i + (if k == 1 then 0 else k)) % 13]))
  }

  /** The ordering that puts the first call ahead of the plain variable. */
  function GapOrdering(): seq<Pattern> {
    [CardOf(Wild, Above(1)), CardOf(Wild, R1), CardOf(Wild, Above(2)), CardOf(Wild, Above(3)),
     CardOf(Wild, Above(4))]
  }

  lemma GapSteps(suits: seq<string>, i: nat)
    requires |suits| == 5 && i < 13
    ensures Match(Arr(GapOrdering()), L(AceGap(suits, i))).Some?
  {
    var none: Bindings := map[];
    GapFirst(suits, i, none);
    GapSecond(suits, i, none);
    GapRest(suits, i, none + map["r1" := A(Str(Ranks[i]))]);
  }

  lemma GapFirst(suits: seq<string>, i: nat, b: Bindings)
    requires |suits| == 5 && i < 13 && "r1" !in b
    ensures MatchSeq(GapOrdering(), AceGap(suits, i), 0, b) == MatchSeq(GapOrdering(), AceGap(suits, i), 1, b)
  {
    var p, es := GapOrdering(), AceGap(suits, i);
    var none: Bindings := map[];
    assert p[0] == CardOf(Wild, Above(1));
    UnboundAboveCard(b, 1, suits[0]);
    assert Ranks[(1 - 1) % 13] == "A";
    assert b + none == b;
  }

  lemma GapSecond(suits: seq<string>, i: nat, b: Bindings)
    requires |suits| == 5 && i < 13 && "r1" !in b
    ensures MatchSeq(GapOrdering(), AceGap(suits, i), 1, b) ==
      MatchSeq(GapOrdering(), AceGap(suits, i), 2, b + map["r1" := A(Str(Ranks[i]))])
  {
    var p, es := GapOrdering(), AceGap(suits, i);
    assert p[1] == CardOf(Wild, R1);
    assert i % 13 == i;
    RankFresh(b, "r1", suits[1], Ranks[i]);
  }

  lemma GapRest(suits: seq<string>, i: nat, b: Bindings)
    requires |suits| == 5 && i < 13 && "r1" in b && b["r1"] == A(Str(Ranks[i]))
    ensures MatchSeq(GapOrdering(), AceGap(suits, i), 2, b) == Some(b)
  {
    var p, es := GapOrdering(), AceGap(suits, i);
    forall j | 2 <= j < 5 ensures Match(Substitute(b, p[j]), es[j]) == Some(map[]) {
      assert p[j] == CardOf(Wild, Above(j));
      AboveSettled(b, i, j);
      CardSettled(b, Wild, Above(j), suits[j], Ranks[(i + j) % 13]);
    }
    MatchSeqBound(p, es, 2, b);
  }

  /** Tried in the order `[[_, addRank(r1, 1)], [_, r1], [_, addRank(r1, 2)], ...]`, the first
      call meets `r1` unbound: `indexOf` gives -1 and the call reads the ace. `r1` is then
      bound to rank `i`, and the remaining calls ask for ranks `i + 2` to `i + 4`. So an ace
      with ranks `i`, `i + 2`, `i + 3`, `i + 4` is taken for a straight. */
  lemma StraightTakesAceGap(suits: seq<string>, i: nat)
    requires |suits| == 5 && i < 13
    ensures Match(Straight, L(AceGap(suits, i))).Some?
  {
    var p := GapOrdering();
    SwapsFirstTwo(p[1], p[0], p[2], p[3], p[4]);
    GapSteps(suits, i);
    MatchUnorderedVia(StraightValues, L(AceGap(suits, i)), p);
  }

  /** Ace, two, four, five, six, which is not five ranks in a row, is taken for a straight. */
  lemma StraightAcceptsGap()
    ensures !HoldsSomeRun(GapHand)
    ensures Match(Straight, L(GapHand)).Some?
  {
    GapHandHoldsNoRun();
    var suits := ["heart", "spade", "diamond", "club", "diamond"];
    GapHandIsAceGap(suits);
    StraightTakesAceGap(suits, 1);
  }

  lemma GapHandIsAceGap(suits: seq<string>)
    requires suits == ["heart", "spade", "diamond", "club", "diamond"]
    ensures GapHand == AceGap(suits, 1)
  {
    var h := AceGap(suits, 1);
    assert Ranks[1] == "2" && Ranks[3] == "4" && Ranks[4] == "5" && Ranks[5] == "6";
    assert h[2] == CardE(suits[2], Ranks[3]);
    assert h[3] == CardE(suits[3], Ranks[4]);
    assert h[4] == CardE(suits[4], Ranks[5]);
  }

  // ---------------------------------------------------------------------------
  // Rearrangements under a map

  /** `s.map(f)`. */
  function MapSeq<T, U>(f: T -> U, s: seq<T>): (r: seq<U>)
    ensures |r| == |s| && forall k :: 0 <= k < |s| ==> r[k] == f(s[k])
  {
    seq(|s|, k requires 0 <= k < |s| => f(s[k]))
  }

  /** Mapping a sequence maps the element taken out by `Remove`. */
  lemma MapRemove<T, U>(f: T -> U, s: seq<T>, t: nat)
    requires t < |s|
    ensures multiset(MapSeq(f, s)) == multiset(MapSeq(f, Permute.Remove(s, t))) + multiset{f(s[t])}
  {
    assert MapSeq(f, s) == MapSeq(f, s[..t]) + [f(s[t])] + MapSeq(f, s[t + 1..]);
    assert MapSeq(f, Permute.Remove(s, t)) == MapSeq(f, s[..t]) + MapSeq(f, s[t + 1..]);
  }

  /** Mapping both sides keeps one sequence a rearrangement of the other. */
  lemma {:induction false} MapMultiset<T, U>(f: T -> U, a: seq<T>, b: seq<T>)
    requires multiset(a) == multiset(b)
    ensures multiset(MapSeq(f, a)) == multiset(MapSeq(f, b))
    decreases |a|
  {
    if |a| > 0 {
      assert a[0] in multiset(b);
      var t :| 0 <= t < |b| && b[t] == a[0];
      Permute.RemoveMultiset(a, 0);
      Permute.RemoveMultiset(b, t);
      Permute.MultisetCancel(multiset(Permute.Remove(a, 0)), multiset(Permute.Remove(b, t)), a[0]);
      MapMultiset(f, Permute.Remove(a, 0), Permute.Remove(b, t));
      MapRemove(f, a, 0);
      MapRemove(f, b, t);
    }
  }

  // ---------------------------------------------------------------------------
  // straight, corrected: one ground group per run

  /** The five ranks of the run starting at rank `i`. */
  function RunRanks(i: nat): seq<string> {
    seq(5, k requires 0 <= k < 5 => RunRank(i, k))
  }

  /** Five cards, of any suits, whose ranks are the run starting at rank `i`. */
  function RunOf(i: nat): Pattern {
    MkUnordered(MapSeq(CardOfRank, RunRanks(i)))
  }

  /** A straight is the group of some run; as in the pattern as written, the ace counts
      both below the two and above the king. */
  const StraightAsIntended := Any(seq(13, i requires 0 <= i < 13 => RunOf(i)))

  /** The cards of the hand have, position by position, the ranks `rs`. */
  predicate RanksAre(hand: seq<Expr>, rs: seq<string>) {
    |hand| == |rs| && forall k :: 0 <= k < |hand| ==> HasRank(hand[k], rs[k])
  }

  /** The ranks of the hand are the run starting at rank `i`, in some order. */
  ghost predicate IsRunOf(hand: seq<Expr>, i: nat) {
    exists rs :: RanksAre(hand, rs) && multiset(rs) == multiset(RunRanks(i))
  }

  /** The ranks of the hand are five ranks in a row, in some order. */
  ghost predicate IsStraight(hand: seq<Expr>) {
    exists i :: 0 <= i < 13 && IsRunOf(hand, i)
  }

  /** The rank a card pattern asks for. */
  function RankOfCard(p: Pattern): string {
    if p.Arr? && |p.items| == 2 && p.items[1].Const? && p.items[1].atom.Str? then p.items[1].atom.s
    else ""
  }

  lemma RunOfSound(i: nat, e: Expr)
    requires Match(RunOf(i), e).Some?
    ensures e.L? && |e.items| == 5 && IsRunOf(e.items, i)
  {
    var values := MapSeq(CardOfRank, RunRanks(i));
    MatchUnorderedRearrangement(values, e);
    var p :| multiset(p) == multiset(values) && Match(Arr(p), e).Some?;
    MatchArrFits(p, e);
    var rs := MapSeq(RankOfCard, p);
    forall k | 0 <= k < 5 ensures HasRank(e.items[k], rs[k]) {
      assert p[k] in multiset(values);
      var t :| 0 <= t < 5 && values[t] == p[k];
      assert p[k] == CardOfRank(rs[k]);
      MatchCardOfRank(rs[k], e.items[k]);
    }
    MapMultiset(RankOfCard, p, values);
    assert MapSeq(RankOfCard, values) == RunRanks(i);
    assert RanksAre(e.items, rs);
  }

  lemma RunOfComplete(i: nat, e: Expr, rs: seq<string>)
    requires e.L? && RanksAre(e.items, rs) && multiset(rs) == multiset(RunRanks(i))
    ensures Match(RunOf(i), e).Some?
  {
    var values := MapSeq(CardOfRank, RunRanks(i));
    var p := MapSeq(CardOfRank, rs);
    MapMultiset(CardOfRank, rs, RunRanks(i));
    forall k, b: Bindings | 0 <= k < |p| ensures Substitute(b, p[k]) == p[k] {
      CardOfRankFixed(b, rs[k]);
    }
    forall k | 0 <= k < |p| ensures Match(p[k], e.items[k]).Some? {
      MatchCardOfRank(rs[k], e.items[k]);
    }
    MatchSeqOfFixed(p, e.items, 0, map[]);
    MatchUnorderedVia(values, e, p);
  }

  lemma RunOfGround(i: nat, e: Expr)
    ensures Match(RunOf(i), e).Some? ==> Match(RunOf(i), e).value == map[]
  {
    MkUnorderedGround(MapSeq(CardOfRank, RunRanks(i)));
    MatchGround(RunOf(i), e);
  }

  /** The corrected pattern accepts exactly the five-card hands whose ranks are five ranks
      in a row, in any order and of any suits, and it binds nothing. */
  lemma StraightAsIntendedSpec(e: Expr)
    ensures Match(StraightAsIntended, e).Some? <==> e.L? && |e.items| == 5 && IsStraight(e.items)
    ensures Match(StraightAsIntended, e).Some? ==> Match(StraightAsIntended, e).value == map[]
  {
    var alts := seq(13, i requires 0 <= i < 13 => RunOf(i));
    MatchAny(alts, e);
    if Match(StraightAsIntended, e).Some? {
      var i :| 0 <= i < 13 && Match(StraightAsIntended, e) == Match(alts[i], e);
      RunOfSound(i, e);
      RunOfGround(i, e);
    }
    if e.L? && |e.items| == 5 && IsStraight(e.items) {
      var i :| 0 <= i < 13 && IsRunOf(e.items, i);
      var rs :| RanksAre(e.items, rs) && multiset(rs) == multiset(RunRanks(i));
      RunOfComplete(i, e, rs);
      assert Match(alts[i], e).Some?;
    }
  }

  /** A hand whose ranks are a run in some order holds every rank of that run. */
  lemma StraightHoldsRun(hand: seq<Expr>, i: nat)
    ensures IsRunOf(hand, i) ==> HoldsRun(hand, i)
  {
    if IsRunOf(hand, i) {
      var rs :| RanksAre(hand, rs) && multiset(rs) == multiset(RunRanks(i));
      forall k | 0 <= k < 5 ensures Held(hand, RunRank(i, k)) {
        assert RunRanks(i)[k] in multiset(rs);
        var m :| 0 <= m < |rs| && rs[m] == RunRank(i, k);
        assert HasRank(hand[m], RunRank(i, k));
      }
    }
  }

  /** The corrected pattern turns the ace-two-four-five-six hand away. */
  lemma StraightAsIntendedRejectsGap()
    ensures Match(StraightAsIntended, L(GapHand)).None?
  {
    GapHandHoldsNoRun();
    forall i | 0 <= i < 13 ensures !IsRunOf(GapHand, i) {
      StraightHoldsRun(GapHand, i);
    }
    StraightAsIntendedSpec(L(GapHand));
  }

  /** Every run in order, whatever its suits, is a straight for the corrected pattern, among
      them the hand of test.js. */
  lemma StraightAsIntendedAcceptsRun(suits: seq<string>, i: nat)
    requires |suits| == 5 && i < 13
    ensures Match(StraightAsIntended, L(Run(suits, i))).Some?
  {
    assert RanksAre(Run(suits, i), RunRanks(i));
    assert IsRunOf(Run(suits, i), i);
    StraightAsIntendedSpec(L(Run(suits, i)));
  }

  lemma StraightAsIntendedAcceptsTestHand()
    ensures Match(StraightAsIntended, L(StraightHand)).Some?
  {
    assert StraightHand == Run(["spade", "hearth", "spade", "diamond", "diamond"], 1);
    StraightAsIntendedAcceptsRun(["spade", "hearth", "spade", "diamond", "diamond"], 1);
  }
}
