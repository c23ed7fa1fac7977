/** The pattern-unification engine of match.js: the pattern kinds, `substitute`, and
    `match`, the last both as a specification function and as the looping method the
    source is. */
module Matcher {
  import opened Wrappers
  import Cards
  import Permute

  /** The values `isConstant` accepts: strings, numbers (integers here), booleans, `null`
      and `undefined`. */
  datatype Atom = Str(s: string) | Num(n: int) | Bool(b: bool) | Null | Undefined

  /** A concrete expression: an atom or a (nested) array. */
  datatype Expr = A(atom: Atom) | L(items: seq<Expr>)

  /** The object `match` returns on success: label to matched expression. */
  type Bindings = map<string, Expr>

  /** The pattern kinds `match` dispatches on. */
  datatype Pattern =
    | Const(atom: Atom)                                  // an atomic value, compared with ===
    | Wild                                               // the `wildcard` symbol
    | Var(name: string)                                  // Variable(label)
    | Call(ranks: seq<string>, arg: Pattern, add: nat)   // FunctionCall(addRank, arg, add), addRank over `ranks`
    | Capture(name: string, pat: Pattern)                // Capture(label, pattern)
    | Any(alts: seq<Pattern>)                            // Any(...patterns)
    | Unordered(perms: seq<Pattern>)                     // the precomputed orderings, each an array pattern
    | Arr(items: seq<Pattern>)                           // a plain array of patterns

  /** An expression placed where a pattern is expected (what `substitute` does with a bound
      value): atoms become constants, arrays stay arrays. */
  function Lift(e: Expr): Pattern {
    match e
    case A(a) => Const(a)
    case L(items) => Arr(seq(|items|, i requires 0 <= i < |items| => Lift(items[i])))
  }

  /** Every ordering of `values`, as array patterns, in the order `permutations` lists them. */
  function Orderings(values: seq<Pattern>): (r: seq<Pattern>)
    ensures |r| == |Permute.Permutations(values)|
    ensures forall k :: 0 <= k < |r| ==> r[k] == Arr(Permute.Permutations(values)[k])
  {
    var ps := Permute.Permutations(values);
    seq(|ps|, k requires 0 <= k < |ps| => Arr(ps[k]))
  }

  /** An ordering group over n values holds n! array patterns, the first being the values as
      given and each a rearrangement of them. */
  lemma OrderingsOfValues(values: seq<Pattern>)
    ensures |Orderings(values)| == Permute.Factorial(|values|)
    ensures Orderings(values)[0] == Arr(values)
    ensures forall k :: 0 <= k < |Orderings(values)| ==>
      Orderings(values)[k].Arr? && multiset(Orderings(values)[k].items) == multiset(values)
  {
    Permute.PermutationsLength(values);
    Permute.PermutationsHead(values);
    Permute.PermutationsAllRearrange(values);
  }

  /** The constructor `Unordered(...values)`: it stores `permutations(values)`. */
  function MkUnordered(values: seq<Pattern>): Pattern {
    Unordered(Orderings(values))
  }

  /** The ranks as the (string) values `indexOf` compares the argument with. */
  function RankValues(ranks: seq<string>): (r: seq<Pattern>)
    ensures |r| == |ranks|
    ensures forall i :: 0 <= i < |r| ==> r[i] == Const(Str(ranks[i]))
  {
    seq(|ranks|, i requires 0 <= i < |ranks| => Const(Str(ranks[i])))
  }

  /** What `pat.fun(...pat.parameters)` returns for `FunctionCall(addRank, arg, add)`:
      `cards.addRank(ranks, arg, add)`, a rank or `undefined`, which `match` then treats as
      a constant pattern. The argument is compared by `indexOf`, so anything but a rank
      string (notably a still unbound `Variable`) has index -1. */
  function CallTarget(ranks: seq<string>, arg: Pattern, add: nat): (r: Pattern)
    ensures r.Const?
    ensures r.atom.Str? ==> r.atom.s in ranks
    ensures r.atom.Str? || r.atom.Undefined?
  {
    match Cards.AddRank(RankValues(ranks), arg, add)
    case None => Const(Undefined)
    case Some(p) => p
  }

  /** `substitute(subs, pat)`: every variable bound in `subs` (to something other than
      `undefined`) is replaced by its value; everything else keeps its shape. An ordering
      group is rebuilt from its first ordering. */
  function Substitute(subs: Bindings, pat: Pattern): Pattern {
    match pat
    case Const(_) => pat
    case Wild => pat
    case Var(l) => if l in subs && subs[l] != A(Undefined) then Lift(subs[l]) else pat
    case Call(ranks, arg, add) => Call(ranks, Substitute(subs, arg), add)
    case Capture(l, p) => Capture(l, Substitute(subs, p))
    case Any(alts) => Any(SubstituteAll(subs, alts))
    case Unordered(perms) =>
      if |perms| > 0 && perms[0].Arr? then MkUnordered(SubstituteAll(subs, perms[0].items))
      else pat
    case Arr(items) => Arr(SubstituteAll(subs, items))
  }

  /** `pats.map(pat => substitute(subs, pat))`. */
  function SubstituteAll(subs: Bindings, pats: seq<Pattern>): (r: seq<Pattern>)
    ensures |r| == |pats|
  {
    seq(|pats|, i requires 0 <= i < |pats| => Substitute(subs, pats[i]))
  }

  /** The first branch of `match`: an atomic pattern against an expression. */
  function MatchAtom(a: Atom, expr: Expr): Option<Bindings> {
    if expr == A(a) then Some(map[]) else None
  }

  /** `match(pat, expr)`: the bindings that make `expr` fit `pat`, or `None` for the
      source's `false`. */
  function Match(pat: Pattern, expr: Expr): Option<Bindings>
    decreases expr, pat, 0
  {
    match pat
    case Const(a) => MatchAtom(a, expr)
    case Wild => Some(map[])
    case Var(l) => Some(map[l := expr])
    case Call(ranks, arg, add) => MatchAtom(CallTarget(ranks, arg, add).atom, expr)
    case Capture(l, p) =>
      (match Match(p, expr)
       case None => None
       case Some(subs) => Some(subs[l := expr]))
    case Any(alts) => MatchFirst(alts, expr, 0)
    case Unordered(perms) => MatchFirst(perms, expr, 0)
    case Arr(ps) =>
      if !expr.L? then None
      else if |expr.items| == 0 && |ps| == 0 then Some(map[])
      else if |expr.items| != |ps| then None
      else MatchSeq(ps, expr.items, 0, map[])
  }

  /** The loops over `Any`'s patterns and `Unordered`'s orderings, from position `k` on:
      the first success, or `None` when all fail. */
  function MatchFirst(ps: seq<Pattern>, expr: Expr, k: nat): Option<Bindings>
    requires k <= |ps|
    decreases expr, ps, |ps| - k
  {
    if k == |ps| then None
    else
      var subs := Match(ps[k], expr);
      if subs.Some? then subs else MatchFirst(ps, expr, k + 1)
  }

  /** The array loop from position `k` on, with `acc` the bindings collected before `k`:
      each element is matched after substituting `acc` into it, and its bindings are merged
      over `acc`. */
  function MatchSeq(ps: seq<Pattern>, es: seq<Expr>, k: nat, acc: Bindings): Option<Bindings>
    requires |ps| == |es| && k <= |es|
    decreases es, ps, |es| - k
  {
    if k == |es| then Some(acc)
    else
      match Match(Substitute(acc, ps[k]), es[k])
      case None => None
      case Some(subs) => MatchSeq(ps, es, k + 1, acc + subs)
  }

  /** `match` as the source runs it, with its loops and early returns. */
  method Unify(pat: Pattern, expr: Expr) returns (r: Option<Bindings>)
    ensures r == Match(pat, expr)
    decreases expr, pat
  {
    match pat
    case Const(a) =>
      r := if expr == A(a) then Some(map[]) else None;
    case Wild =>
      r := Some(map[]);
    case Var(l) =>
      r := Some(map[l := expr]);
    case Call(ranks, arg, add) =>
      var target := CallTarget(ranks, arg, add);
      r := if expr == A(target.atom) then Some(map[]) else None;
    case Capture(l, p) =>
      var subs := Unify(p, expr);
      if subs.None? {
        return None;
      }
      r := Some(subs.value[l := expr]);
    case Any(alts) =>
      r := UnifyFirst(alts, expr);
    case Unordered(perms) =>
      r := UnifyFirst(perms, expr);
    case Arr(ps) =>
      if !expr.L? {
        return None;
      }
      var es := expr.items;
      if |es| == 0 && |ps| == 0 {
        return Some(map[]);
      }
      if |es| != |ps| {
        return None;
      }
      var subsFinal: Bindings := map[];
      for i := 0 to |es|
        invariant MatchSeq(ps, es, i, subsFinal) == Match(pat, expr)
      {
        var subs := Unify(Substitute(subsFinal, ps[i]), es[i]);
        if subs.None? {
          return None;
        }
        subsFinal := subsFinal + subs.value;
      }
      r := Some(subsFinal);
  }

  /** The `for (const pat1 of ...)` loop of `Any` and `Unordered`: return the first
      success. */
  method UnifyFirst(ps: seq<Pattern>, expr: Expr) returns (r: Option<Bindings>)
    ensures r == MatchFirst(ps, expr, 0)
    decreases expr, ps
  {
    for i := 0 to |ps|
      invariant MatchFirst(ps, expr, i) == MatchFirst(ps, expr, 0)
    {
      var subs := Unify(ps[i], expr);
      if subs.Some? {
        return subs;
      }
    }
    return None;
  }

  /** Every ordering group is one `MkUnordered` built, over well-formed values. */
  predicate WellFormed(pat: Pattern) {
    match pat
    case Const(_) => true
    case Wild => true
    case Var(_) => true
    case Call(_, arg, _) => WellFormed(arg)
    case Capture(_, p) => WellFormed(p)
    case Any(alts) => forall i :: 0 <= i < |alts| ==> WellFormed(alts[i])
    case Unordered(perms) =>
      && |perms| > 0 && perms[0].Arr?
      && perms == Orderings(perms[0].items)
      && forall i :: 0 <= i < |perms[0].items| ==> WellFormed(perms[0].items[i])
    case Arr(items) => forall i :: 0 <= i < |items| ==> WellFormed(items[i])
  }

  /** No variable and no capture, except as the argument of a function call (the call
      always yields a constant): such a pattern binds nothing. */
  predicate Ground(pat: Pattern) {
    match pat
    case Const(_) => true
    case Wild => true
    case Var(_) => false
    case Call(_, _, _) => true
    case Capture(_, _) => false
    case Any(alts) => forall i :: 0 <= i < |alts| ==> Ground(alts[i])
    case Unordered(perms) => forall i :: 0 <= i < |perms| ==> Ground(perms[i])
    case Arr(items) => forall i :: 0 <= i < |items| ==> Ground(items[i])
  }
}
