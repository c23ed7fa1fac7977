/** The card utilities of cards.js: the cyclic rank offset and the rendering of cards. */
module Cards {
  import opened Wrappers

  /** A card is the two-element array `[suit, rank]`. */
  type Card = seq<string>

  /** No value occurs twice. */
  predicate Distinct<T(==)>(s: seq<T>) {
    forall i, j :: 0 <= i < j < |s| ==> s[i] != s[j]
  }

  /** `Array.prototype.indexOf`: the first position holding `x`, or -1. */
  function IndexOf<T(==)>(s: seq<T>, x: T): (r: int)
    ensures -1 <= r < |s|
    ensures r == -1 <==> x !in s
    ensures 0 <= r ==> s[r] == x && forall j :: 0 <= j < r ==> s[j] != x
  {
    if |s| == 0 then -1
    else if s[0] == x then 0
    else
      var k := IndexOf(s[1..], x);
      if k == -1 then -1 else k + 1
  }

  /** JavaScript's `a % b` for a positive divisor: the remainder takes the sign of `a`
      (it truncates toward zero, unlike Dafny's Euclidean `%`). TruncRemExact below shows
      that these bounds and its difference from `a` determine it. */
  function TruncRem(a: int, b: int): (r: int)
    requires b > 0
    ensures -b < r < b
    ensures 0 <= a ==> r == a % b
    ensures a < 0 ==> r <= 0
  {
    if 0 <= a then a % b else -((-a) % b)
  }

  /** `addRank(ranks, rank, add)`: the rank `add` places after `rank`, cycling through
      `ranks`. `None` is the `undefined` that a `NaN` or negative index reads. */
  function AddRank<T(==)>(ranks: seq<T>, rank: T, add: nat): (r: Option<T>)
    ensures r.Some? ==> r.value in ranks
    ensures rank in ranks ==> r.Some?
  {
    if |ranks| == 0 then None
    else
      var k := TruncRem(IndexOf(ranks, rank) + add, |ranks|);
      if 0 <= k then Some(ranks[k]) else None
  }

  /** `makeCard(suit, rank)`. */
  function MakeCard(suit: string, rank: string): (c: Card) {
    [suit, rank]
  }

  /** `card[i]` as a string: a missing element reads `undefined`, which `+` renders so. */
  function Field(card: Card, i: nat): string {
    if i < |card| then card[i] else "undefined"
  }

  /** `cardToString(card)`: the rank, " of ", then the suit. */
  function CardToString(card: Card): string {
    Field(card, 1) + " of " + Field(card, 0)
  }

  /** `Array.prototype.join(sep)` on strings. */
  function Join(parts: seq<string>, sep: string): string {
    if |parts| == 0 then ""
    else if |parts| == 1 then parts[0]
    else parts[0] + sep + Join(parts[1..], sep)
  }

  /** `toString(cards)`: every card rendered, separated by ", ". */
  function ToString(cards: seq<Card>): string {
    Join(seq(|cards|, i requires 0 <= i < |cards| => CardToString(cards[i])), ", ")
  }

  // ---------------------------------------------------------------------------
  // Properties

  lemma IndexOfDistinct<T>(s: seq<T>, k: nat)
    requires Distinct(s) && k < |s|
    ensures IndexOf(s, s[k]) == k
  {
  }

  /** The truncated remainder differs from `a` by a multiple of `b`, and it is the only
      value strictly between `-b` and `b`, of the sign of `a` (or zero), that does. */
  lemma TruncRemExact(a: int, b: int, r: int)
    requires b > 0
    ensures (a - TruncRem(a, b)) % b == 0
    ensures -b < r < b && (0 <= a ==> 0 <= r) && (a < 0 ==> r <= 0) && (a - r) % b == 0 ==>
      r == TruncRem(a, b)
  {
    var t := TruncRem(a, b);
    if 0 <= a {
      ModUnique(a - t, a / b, 0, b);
    } else {
      ModUnique(a - t, -((-a) / b), 0, b);
    }
    if -b < r < b && (0 <= a ==> 0 <= r) && (a < 0 ==> r <= 0) && (a - r) % b == 0 {
      ModDiffZero(a - r, a - t, b);
      assert (t - r) % b == 0;
      SmallMultipleIsZero(t - r, b);
    }
  }

  lemma ModDiffZero(x: int, y: int, n: int)
    requires n > 0 && x % n == 0 && y % n == 0
    ensures (x - y) % n == 0
  {
    ModUnique(x - y, x / n - y / n, 0, n);
  }

  lemma SmallMultipleIsZero(d: int, n: int)
    requires n > 0 && -n < d < n && d % n == 0
    ensures d == 0
  {
    ModUnique(d, d / n, 0, n);
    if d < 0 {
      ModUnique(d, -1, d + n, n);
    }
  }

  /** With `rank` among `ranks` the offset is plain modular arithmetic on its index,
      and the result is again a rank. */
  lemma AddRankOfMember<T>(ranks: seq<T>, rank: T, add: nat)
    requires rank in ranks
    ensures AddRank(ranks, rank, add) == Some(ranks[(IndexOf(ranks, rank) + add) % |ranks|])
    ensures AddRank(ranks, rank, add).value in ranks
  {
    var x := IndexOf(ranks, rank) + add;
    assert 0 <= x;
    assert TruncRem(x, |ranks|) == x % |ranks|;
  }

  /** In a table without repeats, adding to the entry at position `i` gives the entry at
      position `(i + add) % |ranks|`. */
  lemma AddRankAt<T>(ranks: seq<T>, i: nat, add: nat)
    requires Distinct(ranks) && i < |ranks|
    ensures AddRank(ranks, ranks[i], add) == Some(ranks[(i + add) % |ranks|])
  {
    IndexOfDistinct(ranks, i);
    AddRankOfMember(ranks, ranks[i], add);
  }

  /** The remainder is determined by any quotient-remainder decomposition. */
  lemma ModUnique(z: int, q: int, r: int, n: int)
    requires n > 0 && 0 <= r < n && z == q * n + r
    ensures z % n == r
  {
    var d := q - z / n;
    assert d * n == z % n - r;
  }

  /** Offsetting by nothing, or by a full cycle, gives the rank back. */
  lemma AddRankCycle<T>(ranks: seq<T>, rank: T)
    requires Distinct(ranks) && rank in ranks
    ensures AddRank(ranks, rank, 0) == Some(rank)
    ensures AddRank(ranks, rank, |ranks|) == Some(rank)
  {
    var i := IndexOf(ranks, rank);
    ModUnique(i + |ranks|, 1, i, |ranks|);
    ModUnique(i, 0, i, |ranks|);
  }

  lemma ModAddLeft(x: nat, b: nat, n: nat)
    requires n > 0
    ensures (x % n + b) % n == (x + b) % n
  {
    var y := x % n + b;
    ModUnique(x + b, x / n + y / n, y % n, n);
  }

  /** Two offsets in a row are one offset by their sum. */
  lemma AddRankCompose<T>(ranks: seq<T>, rank: T, a: nat, b: nat)
    requires Distinct(ranks) && rank in ranks
    ensures AddRank(ranks, AddRank(ranks, rank, a).value, b) == AddRank(ranks, rank, a + b)
  {
    var n := |ranks|;
    var i := IndexOf(ranks, rank);
    var k := (i + a) % n;
    IndexOfDistinct(ranks, k);
    ModAddLeft(i + a, b, n);
  }

  /** A value that is not a rank has index -1, so the offset counts from the first rank
      shifted back by one; with no offset at all it reads `undefined`. */
  lemma AddRankOfNonMember<T>(ranks: seq<T>, rank: T, add: nat)
    requires rank !in ranks && |ranks| > 0
    ensures 1 <= add ==> AddRank(ranks, rank, add) == Some(ranks[(add - 1) % |ranks|])
    ensures add == 0 && |ranks| > 1 ==> AddRank(ranks, rank, add) == None
  {
  }

  /** A card renders as its rank, " of ", its suit. */
  lemma CardToStringOfMakeCard(suit: string, rank: string)
    ensures MakeCard(suit, rank) == [suit, rank]
    ensures CardToString(MakeCard(suit, rank)) == rank + " of " + suit
  {
  }

  lemma {:induction false} JoinSnoc(parts: seq<string>, last: string, sep: string)
    requires |parts| > 0
    ensures Join(parts + [last], sep) == Join(parts, sep) + sep + last
  {
    if |parts| == 1 {
      assert (parts + [last])[1..] == [last];
    } else {
      assert (parts + [last])[1..] == parts[1..] + [last];
      JoinSnoc(parts[1..], last, sep);
    }
  }

  /** No cards render as the empty string, one card as itself, and every further card is
      appended after ", ". */
  lemma ToStringShape(cards: seq<Card>, card: Card)
    ensures ToString([]) == ""
    ensures ToString([card]) == CardToString(card)
    ensures cards != [] ==> ToString(cards + [card]) == ToString(cards) + ", " + CardToString(card)
  {
    var strs := seq(|cards|, i requires 0 <= i < |cards| => CardToString(cards[i]));
    var all := cards + [card];
    assert seq(|all|, i requires 0 <= i < |all| => CardToString(all[i])) == strs + [CardToString(card)];
    if cards != [] {
      JoinSnoc(strs, CardToString(card), ", ");
    }
  }
}
