/** What match.js promises about `substitute` and `match`, proved of the model. */
module MatchFacts {
  import opened Wrappers
  import opened Matcher
  import Permute
  import Cards

  // ---------------------------------------------------------------------------
  // substitute

  /** Constants and the wildcard pass through; a variable is replaced exactly when it is
      bound to something other than `undefined`, and then by its value. */
  lemma SubstituteLeaves(subs: Bindings, a: Atom, x: string)
    ensures Substitute(subs, Const(a)) == Const(a)
    ensures Substitute(subs, Wild) == Wild
    ensures x !in subs || subs[x] == A(Undefined) ==> Substitute(subs, Var(x)) == Var(x)
    ensures x in subs && subs[x] != A(Undefined) ==> Substitute(subs, Var(x)) == Lift(subs[x])
  {
  }

  /** Arrays keep their length and are substituted element by element; a capture keeps its
      label, whatever is bound. */
  lemma SubstituteKeepsShape(subs: Bindings, p: Pattern)
    ensures p.Arr? ==> Substitute(subs, p).Arr? && |Substitute(subs, p).items| == |p.items|
    ensures p.Arr? ==> forall i :: 0 <= i < |p.items| ==>
      Substitute(subs, p).items[i] == Substitute(subs, p.items[i])
    ensures p.Capture? ==> Substitute(subs, p).Capture? && Substitute(subs, p).name == p.name
    ensures p.Any? ==> Substitute(subs, p).Any? && |Substitute(subs, p).alts| == |p.alts|
  {
  }

  /** A substituted value contains no variable, so substituting again leaves it alone. */
  lemma {:induction false} SubstituteLift(subs: Bindings, e: Expr)
    ensures Substitute(subs, Lift(e)) == Lift(e)
  {
    match e
    case A(_) =>
    case L(items) =>
      forall i | 0 <= i < |items| {
        SubstituteLift(subs, items[i]);
      }
  }

  /** Rebuilding an ordering group from its first ordering is rebuilding it from its
      values: the candidate orderings are those of the substituted values. */
  lemma SubstituteUnordered(subs: Bindings, values: seq<Pattern>)
    ensures Substitute(subs, MkUnordered(values)) == MkUnordered(SubstituteAll(subs, values))
  {
    Permute.PermutationsHead(values);
    assert Orderings(values)[0] == Arr(values);
  }

  lemma MkUnorderedWellFormed(values: seq<Pattern>)
    requires forall i :: 0 <= i < |values| ==> WellFormed(values[i])
    ensures WellFormed(MkUnordered(values))
  {
    Permute.PermutationsHead(values);
    assert Orderings(values)[0] == Arr(values);
  }

  lemma {:induction false} LiftWellFormed(e: Expr)
    ensures WellFormed(Lift(e))
  {
    match e
    case A(_) =>
    case L(items) =>
      forall i | 0 <= i < |items| {
        LiftWellFormed(items[i]);
      }
  }

  /** Substitution keeps every ordering group one that the constructor builds. */
  lemma {:induction false} SubstituteWellFormed(subs: Bindings, p: Pattern)
    requires WellFormed(p)
    ensures WellFormed(Substitute(subs, p))
  {
    match p
    case Const(_) =>
    case Wild =>
    case Var(x) =>
      if x in subs && subs[x] != A(Undefined) {
        LiftWellFormed(subs[x]);
      }
    case Call(_, arg, _) =>
      SubstituteWellFormed(subs, arg);
    case Capture(_, q) =>
      SubstituteWellFormed(subs, q);
    case Any(alts) =>
      forall i | 0 <= i < |alts| {
        SubstituteWellFormed(subs, alts[i]);
      }
    case Unordered(perms) =>
      var vs := perms[0].items;
      forall i | 0 <= i < |vs| {
        SubstituteWellFormed(subs, vs[i]);
      }
      MkUnorderedWellFormed(SubstituteAll(subs, vs));
    case Arr(items) =>
      forall i | 0 <= i < |items| {
        SubstituteWellFormed(subs, items[i]);
      }
  }

  /** With nothing bound, substitution gives back the pattern it was given. */
  lemma {:induction false} SubstituteEmpty(p: Pattern)
    requires WellFormed(p)
    ensures Substitute(map[], p) == p
  {
    match p
    case Const(_) =>
    case Wild =>
    case Var(_) =>
    case Call(_, arg, _) =>
      SubstituteEmpty(arg);
    case Capture(_, q) =>
      SubstituteEmpty(q);
    case Any(alts) =>
      forall i | 0 <= i < |alts| {
        SubstituteEmpty(alts[i]);
      }
      assert SubstituteAll(map[], alts) == alts;
    case Unordered(perms) =>
      var vs := perms[0].items;
      forall i | 0 <= i < |vs| {
        SubstituteEmpty(vs[i]);
      }
      assert SubstituteAll(map[], vs) == vs;
    case Arr(items) =>
      forall i | 0 <= i < |items| {
        SubstituteEmpty(items[i]);
      }
      assert SubstituteAll(map[], items) == items;
  }

  /** Substituting twice with the same bindings is substituting once. */
  lemma {:induction false} SubstituteIdempotent(subs: Bindings, p: Pattern)
    ensures Substitute(subs, Substitute(subs, p)) == Substitute(subs, p)
  {
    match p
    case Const(_) =>
    case Wild =>
    case Var(x) =>
      if x in subs && subs[x] != A(Undefined) {
        SubstituteLift(subs, subs[x]);
      }
    case Call(_, arg, _) =>
      SubstituteIdempotent(subs, arg);
    case Capture(_, q) =>
      SubstituteIdempotent(subs, q);
    case Any(alts) =>
      forall i | 0 <= i < |alts| {
        SubstituteIdempotent(subs, alts[i]);
      }
      assert SubstituteAll(subs, SubstituteAll(subs, alts)) == SubstituteAll(subs, alts);
    case Unordered(perms) =>
      if |perms| > 0 && perms[0].Arr? {
        var vs := perms[0].items;
        var once := SubstituteAll(subs, vs);
        forall i | 0 <= i < |vs| {
          SubstituteIdempotent(subs, vs[i]);
        }
        assert SubstituteAll(subs, once) == once;
        SubstituteUnordered(subs, once);
      }
    case Arr(items) =>
      forall i | 0 <= i < |items| {
        SubstituteIdempotent(subs, items[i]);
      }
      assert SubstituteAll(subs, SubstituteAll(subs, items)) == SubstituteAll(subs, items);
  }

  // ---------------------------------------------------------------------------
  // match: base cases

  /** Two atoms match, with no bindings, exactly when they are equal. */
  lemma MatchAtoms(a: Atom, b: Atom)
    ensures Match(Const(a), A(b)).Some? <==> a == b
    ensures Match(Const(a), A(b)).Some? ==> Match(Const(a), A(b)).value == map[]
  {
  }

  /** The wildcard matches anything and binds nothing; a variable matches anything and
      binds exactly its label to the expression. */
  lemma MatchWildcardAndVariable(x: string, e: Expr)
    ensures Match(Wild, e) == Some(map[])
    ensures Match(Var(x), e) == Some(map[x := e])
  {
  }

  /** A function-call pattern matches what its call returns: `match(pat.fun(...), expr)`. */
  lemma MatchCall(ranks: seq<string>, arg: Pattern, add: nat, e: Expr)
    ensures Match(Call(ranks, arg, add), e) == Match(CallTarget(ranks, arg, add), e)
  {
  }

  lemma {:induction false} IndexOfRankValues(ranks: seq<string>, s: string)
    ensures Cards.IndexOf(RankValues(ranks), Const(Str(s))) == Cards.IndexOf(ranks, s)
  {
    if |ranks| > 0 {
      assert RankValues(ranks)[1..] == RankValues(ranks[1..]);
      IndexOfRankValues(ranks[1..], s);
    }
  }

  /** Called on a rank string, the function returns `cards.addRank(ranks, rank, add)`. */
  lemma CallTargetOfRank(ranks: seq<string>, s: string, add: nat)
    ensures CallTarget(ranks, Const(Str(s)), add) ==
      match Cards.AddRank(ranks, s, add)
      case Some(r) => Const(Str(r))
      case None => Const(Undefined)
  {
    IndexOfRankValues(ranks, s);
  }

  /** Called on anything but a rank string, notably a variable still unbound because the
      ordering tried puts the call before the variable's binding, `indexOf` gives -1 and
      the call yields the rank `add - 1` places from the first. */
  lemma CallTargetOfNonRank(ranks: seq<string>, arg: Pattern, add: nat)
    requires !(arg.Const? && arg.atom.Str? && arg.atom.s in ranks)
    requires |ranks| > 0 && 1 <= add
    ensures CallTarget(ranks, arg, add) == Const(Str(ranks[(add - 1) % |ranks|]))
  {
    var values := RankValues(ranks);
    assert arg !in values;
    Cards.AddRankOfNonMember(values, arg, add);
  }

  /** A capture fails exactly when its subpattern fails; otherwise it adds its label,
      bound to the whole expression, last, so it overrides a binding of the same label from
      the subpattern and keeps every other one. */
  lemma MatchCapture(x: string, p: Pattern, e: Expr)
    ensures Match(Capture(x, p), e).None? <==> Match(p, e).None?
    ensures Match(Capture(x, p), e).Some? ==>
      && Match(Capture(x, p), e).value.Keys == Match(p, e).value.Keys + {x}
      && Match(Capture(x, p), e).value[x] == e
      && forall y :: y in Match(p, e).value && y != x ==>
           Match(Capture(x, p), e).value[y] == Match(p, e).value[y]
  {
  }

  /** An atomic pattern never matches an array, nor an array pattern an atom. */
  lemma MatchKindMismatch(a: Atom, es: seq<Expr>, ps: seq<Pattern>, b: Atom)
    ensures Match(Const(a), L(es)) == None
    ensures Match(Arr(ps), A(b)) == None
  {
  }

  /** Arrays of different lengths never match; two empty arrays match with no bindings. */
  lemma MatchArrayLengths(ps: seq<Pattern>, es: seq<Expr>)
    ensures |ps| != |es| ==> Match(Arr(ps), L(es)) == None
    ensures Match(Arr([]), L([])) == Some(map[])
  {
  }

  // ---------------------------------------------------------------------------
  // match: Any and Unordered

  /** The loop over alternatives returns the first success and fails only if every
      alternative fails. */
  lemma {:induction false} MatchFirstSpec(ps: seq<Pattern>, e: Expr, k: nat)
    requires k <= |ps|
    ensures MatchFirst(ps, e, k).None? <==> forall j :: k <= j < |ps| ==> Match(ps[j], e).None?
    ensures MatchFirst(ps, e, k).Some? ==>
      exists j :: k <= j < |ps| && MatchFirst(ps, e, k) == Match(ps[j], e) &&
        forall i :: k <= i < j ==> Match(ps[i], e).None?
    decreases |ps| - k
  {
    if k < |ps| && Match(ps[k], e).None? {
      MatchFirstSpec(ps, e, k + 1);
    }
  }

  /** `Any(p1, ..., pn)` returns the bindings of the first alternative, in the listed order,
      that matches, and fails exactly when all of them fail. */
  lemma MatchAny(alts: seq<Pattern>, e: Expr)
    ensures Match(Any(alts), e).None? <==> forall j :: 0 <= j < |alts| ==> Match(alts[j], e).None?
    ensures Match(Any(alts), e).Some? ==>
      exists j :: 0 <= j < |alts| && Match(Any(alts), e) == Match(alts[j], e) &&
        forall i :: 0 <= i < j ==> Match(alts[i], e).None?
  {
    MatchFirstSpec(alts, e, 0);
  }

  /** An ordering group returns the bindings of the first of its orderings that matches,
      and fails exactly when none does. */
  lemma MatchUnorderedFirst(perms: seq<Pattern>, e: Expr)
    ensures Match(Unordered(perms), e).None? <==> forall j :: 0 <= j < |perms| ==> Match(perms[j], e).None?
    ensures Match(Unordered(perms), e).Some? ==>
      exists j :: 0 <= j < |perms| && Match(Unordered(perms), e) == Match(perms[j], e) &&
        forall i :: 0 <= i < j ==> Match(perms[i], e).None?
  {
    MatchFirstSpec(perms, e, 0);
  }

  /** `Unordered(v1, ..., vn)` matches exactly when some rearrangement of its values matches
      as an array. */
  lemma MatchUnorderedRearrangement(values: seq<Pattern>, e: Expr)
    ensures Match(MkUnordered(values), e).Some? <==>
      exists p :: multiset(p) == multiset(values) && Match(Arr(p), e).Some?
  {
    var os := Orderings(values);
    var perms := Permute.Permutations(values);
    MatchFirstSpec(os, e, 0);
    if Match(MkUnordered(values), e).Some? {
      var j :| 0 <= j < |os| && Match(os[j], e).Some?;
      Permute.PermutationsRearrange(values, perms[j]);
      assert Match(Arr(perms[j]), e).Some?;
    }
    if p :| multiset(p) == multiset(values) && Match(Arr(p), e).Some? {
      Permute.PermutationsComplete(values, p);
      var j :| 0 <= j < |perms| && perms[j] == p;
      assert Match(os[j], e).Some?;
    }
  }

  /** The first ordering tried is the values in the order given: when that matches, the
      group returns exactly its bindings. */
  lemma MatchUnorderedInOrder(values: seq<Pattern>, e: Expr)
    requires Match(Arr(values), e).Some?
    ensures Match(MkUnordered(values), e) == Match(Arr(values), e)
  {
    Permute.PermutationsHead(values);
    assert Orderings(values)[0] == Arr(values);
  }

  /** One rearrangement that matches as an array is enough for the group to match. */
  lemma MatchUnorderedVia(values: seq<Pattern>, e: Expr, p: seq<Pattern>)
    requires multiset(p) == multiset(values) && Match(Arr(p), e).Some?
    ensures Match(MkUnordered(values), e).Some?
  {
    MatchUnorderedRearrangement(values, e);
  }

  // ---------------------------------------------------------------------------
  // match: arrays

  /** A pattern fits an expression when it matches it after substituting the bindings
      collected before it, whatever they were. */
  ghost predicate Fits(p: Pattern, e: Expr) {
    exists b: Bindings :: Match(Substitute(b, p), e).Some?
  }

  lemma {:induction false} MatchSeqFits(ps: seq<Pattern>, es: seq<Expr>, k: nat, acc: Bindings)
    requires |ps| == |es| && k <= |es| && MatchSeq(ps, es, k, acc).Some?
    ensures forall j :: k <= j < |es| ==> Fits(ps[j], es[j])
    decreases |es| - k
  {
    if k < |es| {
      var subs := Match(Substitute(acc, ps[k]), es[k]);
      assert Fits(ps[k], es[k]);
      MatchSeqFits(ps, es, k + 1, acc + subs.value);
    }
  }

  /** An array pattern that matches faces an array of its length, and each element of the
      pattern fits the element of the expression at its position. */
  lemma MatchArrFits(ps: seq<Pattern>, e: Expr)
    requires Match(Arr(ps), e).Some?
    ensures e.L? && |e.items| == |ps|
    ensures forall j :: 0 <= j < |ps| ==> Fits(ps[j], e.items[j])
  {
    if |ps| > 0 {
      MatchSeqFits(ps, e.items, 0, map[]);
    }
  }

  /** Elements that need no substitution and each match their expression make the whole
      array loop succeed. */
  lemma {:induction false} MatchSeqOfFixed(ps: seq<Pattern>, es: seq<Expr>, k: nat, acc: Bindings)
    requires |ps| == |es| && k <= |es|
    requires forall j, b: Bindings :: k <= j < |es| ==> Substitute(b, ps[j]) == ps[j]
    requires forall j :: k <= j < |es| ==> Match(ps[j], es[j]).Some?
    ensures MatchSeq(ps, es, k, acc).Some?
    decreases |es| - k
  {
    if k < |es| {
      assert Substitute(acc, ps[k]) == ps[k];
      MatchSeqOfFixed(ps, es, k + 1, acc + Match(ps[k], es[k]).value);
    }
  }

  /** An array pattern whose elements need no substitution matches every array of its
      length whose elements each match. */
  lemma MatchArrOfFixed(ps: seq<Pattern>, e: Expr)
    requires e.L? && |ps| == |e.items|
    requires forall j, b: Bindings :: 0 <= j < |ps| ==> Substitute(b, ps[j]) == ps[j]
    requires forall j :: 0 <= j < |ps| ==> Match(ps[j], e.items[j]).Some?
    ensures Match(Arr(ps), e).Some?
  {
    MatchSeqOfFixed(ps, e.items, 0, map[]);
  }

  /** A two-element array pattern: the first element matches, then the second is matched
      after substituting what the first bound, and the two bindings are merged. */
  lemma MatchTwoElements(p: Pattern, q: Pattern, x: Expr, y: Expr)
    requires WellFormed(p)
    ensures Match(Arr([p, q]), L([x, y])) ==
      match Match(p, x)
      case None => None
      case Some(b1) =>
        match Match(Substitute(b1, q), y)
        case None => None
        case Some(b2) => Some(b1 + b2)
  {
    var none: Bindings := map[];
    SubstituteEmpty(p);
    var ps, es := [p, q], [x, y];
    assert Match(Arr(ps), L(es)) == MatchSeq(ps, es, 0, none);
    match Match(p, x)
    case None =>
    case Some(b1) =>
      assert none + b1 == b1;
      assert MatchSeq(ps, es, 0, none) == MatchSeq(ps, es, 1, b1);
      match Match(Substitute(b1, q), y)
      case None =>
      case Some(b2) =>
        assert MatchSeq(ps, es, 1, b1) == MatchSeq(ps, es, 2, b1 + b2);
  }

  /** Once the bindings already hold everything the remaining elements would bind, the loop
      finishes with those bindings. */
  lemma {:induction false} MatchSeqBound(ps: seq<Pattern>, es: seq<Expr>, k: nat, b: Bindings)
    requires |ps| == |es| && k <= |es|
    requires forall j :: k <= j < |es| ==> Match(Substitute(b, ps[j]), es[j]) == Some(map[])
    ensures MatchSeq(ps, es, k, b) == Some(b)
    decreases |es| - k
  {
    if k < |es| {
      var none: Bindings := map[];
      assert b + none == b;
      MatchSeqBound(ps, es, k + 1, b);
    }
  }

  lemma {:induction false} MatchSeqLift(vs: seq<Expr>, es: seq<Expr>, k: nat)
    requires |vs| == |es| && k <= |es|
    ensures MatchSeq(Lift(L(vs)).items, es, k, map[]) ==
      if vs[k..] == es[k..] then Some(map[]) else None
    decreases vs, |vs| - k
  {
    var ps := Lift(L(vs)).items;
    if k < |es| {
      SubstituteLift(map[], vs[k]);
      assert Substitute(map[], ps[k]) == Lift(vs[k]);
      MatchLift(vs[k], es[k]);
      MatchSeqLift(vs, es, k + 1);
      assert vs[k..] == [vs[k]] + vs[k + 1..];
      assert es[k..] == [es[k]] + es[k + 1..];
      if vs[k] == es[k] {
        var none: Bindings := map[];
        assert none + none == none;
      }
    }
  }

  /** An expression used as a pattern matches exactly itself, binding nothing. */
  lemma {:induction false} MatchLift(a: Expr, b: Expr)
    ensures Match(Lift(a), b) == if a == b then Some(map[]) else None
    decreases a, 1
  {
    match a
    case A(_) =>
    case L(vs) =>
      if b.L? && |b.items| == |vs| && |vs| > 0 {
        MatchSeqLift(vs, b.items, 0);
        assert vs[0..] == vs && b.items[0..] == b.items;
      }
  }

  /** A repeated variable is an equality constraint: its second occurrence is replaced by
      the value bound at the first and must match it. A value of `undefined` counts as
      unbound, so then the second occurrence simply rebinds. */
  lemma RepeatedVariable(x: string, a: Expr, b: Expr)
    ensures a != A(Undefined) ==> (Match(Arr([Var(x), Var(x)]), L([a, b])).Some? <==> a == b)
    ensures a == b ==> Match(Arr([Var(x), Var(x)]), L([a, b])) == Some(map[x := a])
    ensures a == A(Undefined) ==> Match(Arr([Var(x), Var(x)]), L([a, b])) == Some(map[x := b])
  {
    var ps, es := [Var(x), Var(x)], [a, b];
    var none: Bindings := map[];
    var acc := map[x := a];
    assert Match(Substitute(none, ps[0]), es[0]) == Some(acc);
    assert none + acc == acc;
    assert Match(Arr(ps), L(es)) == MatchSeq(ps, es, 1, acc);
    var second := Match(Substitute(acc, ps[1]), es[1]);
    assert MatchSeq(ps, es, 1, acc) == if second.Some? then Some(acc + second.value) else None;
    if a != A(Undefined) {
      assert Substitute(acc, ps[1]) == Lift(a);
      MatchLift(a, b);
      assert acc + none == acc;
    } else {
      assert second == Some(map[x := b]);
      assert acc + map[x := b] == map[x := b];
    }
  }

  // ---------------------------------------------------------------------------
  // Patterns without variables

  /** Every ordering of variable-free values is variable-free. */
  lemma MkUnorderedGround(values: seq<Pattern>)
    requires forall i :: 0 <= i < |values| ==> Ground(values[i])
    ensures Ground(MkUnordered(values))
  {
    var os := Orderings(values);
    forall k | 0 <= k < |os| ensures Ground(os[k]) {
      var q := Permute.Permutations(values)[k];
      Permute.PermutationsRearrange(values, q);
      forall i | 0 <= i < |q| ensures Ground(q[i]) {
        assert q[i] in multiset(values);
      }
    }
  }

  lemma {:induction false} SubstituteGround(subs: Bindings, p: Pattern)
    requires Ground(p)
    ensures Ground(Substitute(subs, p))
  {
    match p
    case Const(_) =>
    case Wild =>
    case Call(_, _, _) =>
    case Any(alts) =>
      forall i | 0 <= i < |alts| {
        SubstituteGround(subs, alts[i]);
      }
    case Unordered(perms) =>
      if |perms| > 0 && perms[0].Arr? {
        assert Ground(perms[0]);
        var vs := SubstituteAll(subs, perms[0].items);
        forall i | 0 <= i < |vs| {
          SubstituteGround(subs, perms[0].items[i]);
        }
        MkUnorderedGround(vs);
      }
    case Arr(items) =>
      forall i | 0 <= i < |items| {
        SubstituteGround(subs, items[i]);
      }
  }

  lemma {:induction false} MatchFirstGround(ps: seq<Pattern>, e: Expr, k: nat)
    requires k <= |ps| && forall i :: 0 <= i < |ps| ==> Ground(ps[i])
    ensures MatchFirst(ps, e, k).Some? ==> MatchFirst(ps, e, k).value == map[]
    decreases e, ps, |ps| - k
  {
    if k < |ps| {
      MatchGround(ps[k], e);
      MatchFirstGround(ps, e, k + 1);
    }
  }

  lemma {:induction false} MatchSeqGround(ps: seq<Pattern>, es: seq<Expr>, k: nat)
    requires |ps| == |es| && k <= |es| && forall i :: 0 <= i < |ps| ==> Ground(ps[i])
    ensures MatchSeq(ps, es, k, map[]).Some? ==> MatchSeq(ps, es, k, map[]).value == map[]
    decreases es, ps, |es| - k
  {
    if k < |es| {
      SubstituteGround(map[], ps[k]);
      MatchGround(Substitute(map[], ps[k]), es[k]);
      var none: Bindings := map[];
        assert none + none == none;
      MatchSeqGround(ps, es, k + 1);
    }
  }

  /** A pattern with neither variables nor captures binds nothing when it matches. */
  lemma {:induction false} MatchGround(p: Pattern, e: Expr)
    requires Ground(p)
    ensures Match(p, e).Some? ==> Match(p, e).value == map[]
    decreases e, p, 0
  {
    match p
    case Const(_) =>
    case Wild =>
    case Call(_, _, _) =>
    case Any(alts) =>
      MatchFirstGround(alts, e, 0);
    case Unordered(perms) =>
      MatchFirstGround(perms, e, 0);
    case Arr(ps) =>
      if e.L? && |e.items| == |ps| && |ps| > 0 {
        MatchSeqGround(ps, e.items, 0);
      }
  }
}
