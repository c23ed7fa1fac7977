/** The worked examples of match.js's documentation and of the engine's stated
    behaviour, proved of the model. */
module MatchExamples {
  import opened Wrappers
  import opened Matcher
  import opened MatchFacts

  function Int(n: int): Pattern { Const(Num(n)) }
  function IntE(n: int): Expr { A(Num(n)) }

  /** `match([1, 2, [3, Variable("x")]], [1, 2, [3, "hello"]])` returns `{x: "hello"}`. */
  lemma NestedArrayExample()
    ensures Match(Arr([Int(1), Int(2), Arr([Int(3), Var("x")])]),
                  L([IntE(1), IntE(2), L([IntE(3), A(Str("hello"))])]))
            == Some(map["x" := A(Str("hello"))])
  {
    var none: Bindings := map[];
    var x := map["x" := A(Str("hello"))];
    var ps := [Int(3), Var("x")];
    var es := [IntE(3), A(Str("hello"))];
    assert Match(Arr(ps), L(es)) == Some(x) by {
      assert Match(Arr(ps), L(es)) == MatchSeq(ps, es, 0, none);
      assert Match(Substitute(none, ps[0]), es[0]) == Some(none);
      assert none + none == none;
      assert MatchSeq(ps, es, 0, none) == MatchSeq(ps, es, 1, none);
      assert Match(Substitute(none, ps[1]), es[1]) == Some(x);
      assert none + x == x;
    }
    var qs := [Int(1), Int(2), Arr(ps)];
    var fs := [IntE(1), IntE(2), L(es)];
    assert Match(Arr(qs), L(fs)) == MatchSeq(qs, fs, 0, none);
    assert Match(Substitute(none, qs[0]), fs[0]) == Some(none);
    assert none + none == none;
    assert MatchSeq(qs, fs, 0, none) == MatchSeq(qs, fs, 1, none);
    assert Match(Substitute(none, qs[1]), fs[1]) == Some(none);
    assert MatchSeq(qs, fs, 1, none) == MatchSeq(qs, fs, 2, none);
    assert Substitute(none, qs[2]) == qs[2];
    assert none + x == x;
  }

  /** A group of variable-free values that matches binds nothing. */
  lemma GroundUnordered(values: seq<Pattern>, e: Expr, p: seq<Pattern>)
    requires forall i :: 0 <= i < |values| ==> Ground(values[i])
    requires multiset(p) == multiset(values) && Match(Arr(p), e).Some?
    ensures Match(MkUnordered(values), e) == Some(map[])
  {
    MatchUnorderedVia(values, e, p);
    MkUnorderedGround(values);
    MatchGround(MkUnordered(values), e);
  }

  /** `match(Unordered(3, 2, "a", 1), [1, 2, 3, "a"])` returns `{}`. */
  lemma UnorderedExample()
    ensures Match(MkUnordered([Int(3), Int(2), Const(Str("a")), Int(1)]),
                  L([IntE(1), IntE(2), IntE(3), A(Str("a"))]))
            == Some(map[])
  {
    UnorderedOfConstants(Num(3), Num(2), Str("a"), Num(1));
  }

  /** Four constants grouped without order match them listed in another order, and bind
      nothing. */
  lemma UnorderedOfConstants(a: Atom, b: Atom, c: Atom, d: Atom)
    ensures Match(MkUnordered([Const(a), Const(b), Const(c), Const(d)]), L([A(d), A(b), A(a), A(c)]))
            == Some(map[])
  {
    var values := [Const(a), Const(b), Const(c), Const(d)];
    var p := [Const(d), Const(b), Const(a), Const(c)];
    FourReordered(Const(a), Const(b), Const(c), Const(d));
    ConstantsInOrder(a, b, c, d);
    GroundUnordered(values, L([A(d), A(b), A(a), A(c)]), p);
  }

  lemma FourReordered<T>(a: T, b: T, c: T, d: T)
    ensures multiset([d, b, a, c]) == multiset([a, b, c, d])
  {
  }

  lemma ConstantsInOrder(a: Atom, b: Atom, c: Atom, d: Atom)
    ensures Match(Arr([Const(d), Const(b), Const(a), Const(c)]), L([A(d), A(b), A(a), A(c)])).Some?
  {
    var e := L([A(d), A(b), A(a), A(c)]);
    var p := [Const(d), Const(b), Const(a), Const(c)];
    forall j, bs: Bindings | 0 <= j < 4 ensures Substitute(bs, p[j]) == p[j] {
    }
    forall j | 0 <= j < 4 ensures Match(p[j], e.items[j]).Some? {
    }
    MatchArrOfFixed(p, e);
  }

  /** An ordering group does not care about order: `Unordered(1, 2, 3)` matches `[3, 1, 2]`. */
  lemma UnorderedIgnoresOrder()
    ensures Match(MkUnordered([Int(1), Int(2), Int(3)]), L([IntE(3), IntE(1), IntE(2)])).Some?
  {
    var values := [Int(1), Int(2), Int(3)];
    var e := L([IntE(3), IntE(1), IntE(2)]);
    var p := [Int(3), Int(1), Int(2)];
    assert multiset(p) == multiset(values);
    MatchSeqOfFixed(p, e.items, 0, map[]);
    MatchUnorderedVia(values, e, p);
  }

  /** Every value of an ordering group needs an element of its own:
      `Unordered(1, 2)` does not match `[1, 1]`. */
  lemma UnorderedNeedsEveryValue()
    ensures Match(MkUnordered([Int(1), Int(2)]), L([IntE(1), IntE(1)])).None?
  {
    var two := [Int(1), Int(2)];
    var ones := L([IntE(1), IntE(1)]);
    MatchUnorderedRearrangement(two, ones);
    forall q | multiset(q) == multiset(two) ensures Match(Arr(q), ones).None? {
      assert Int(2) in multiset(q);
      var j :| 0 <= j < |q| && q[j] == Int(2);
      ConstNeverFits(Num(2), IntE(1));
      ArrElementFits(q, ones, j);
    }
  }

  /** A constant fits only itself, whatever is bound. */
  lemma ConstNeverFits(c: Atom, e: Expr)
    requires e != A(c)
    ensures !Fits(Const(c), e)
  {
    forall b: Bindings ensures Match(Substitute(b, Const(c)), e).None? {
    }
  }

  /** Each element of a matching array pattern fits the element below it. */
  lemma ArrElementFits(q: seq<Pattern>, e: Expr, j: nat)
    ensures j < |q| && Match(Arr(q), e).Some? ==> e.L? && |e.items| == |q| && Fits(q[j], e.items[j])
  {
    if j < |q| && Match(Arr(q), e).Some? {
      MatchArrFits(q, e);
    }
  }

  /** `match(Capture("all", [Variable("a"), wildcard]), [5, 9])` returns
      `{a: 5, all: [5, 9]}`. */
  lemma CaptureExample()
    ensures Match(Capture("all", Arr([Var("a"), Wild])), L([IntE(5), IntE(9)]))
            == Some(map["a" := IntE(5), "all" := L([IntE(5), IntE(9)])])
  {
    var none: Bindings := map[];
    var a := map["a" := IntE(5)];
    assert none + a == a;
    assert a + none == a;
    assert Match(Arr([Var("a"), Wild]), L([IntE(5), IntE(9)])) == Some(a);
  }
}
