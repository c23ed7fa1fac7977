/** `permutations(arr)` of match.js: every ordering of a sequence, in the fixed order the
    source produces them. */
module Permute {

  function Factorial(n: nat): (r: nat)
    ensures r >= 1
  {
    if n == 0 then 1 else n * Factorial(n - 1)
  }

  /** `[...arr.slice(0, i), ...arr.slice(i + 1)]`: the sequence without its element `i`. */
  function Remove<T>(s: seq<T>, i: nat): (r: seq<T>)
    requires i < |s|
    ensures |r| == |s| - 1
  {
    s[..i] + s[i + 1..]
  }

  /** `.map(rest => [x, ...rest])`. */
  function PrependAll<T>(x: T, rests: seq<seq<T>>): (r: seq<seq<T>>)
    ensures |r| == |rests|
    ensures forall k :: 0 <= k < |r| ==> r[k] == [x] + rests[k]
  {
    seq(|rests|, k requires 0 <= k < |rests| => [x] + rests[k])
  }

  /** All orderings of `s`: `[[]]` for the empty sequence, otherwise, for i = 0 .. |s|-1 in
      turn, `s[i]` followed by each ordering of the rest. */
  function Permutations<T>(s: seq<T>): seq<seq<T>>
    decreases |s|, 1, 0
  {
    if |s| == 0 then [[]] else PermsUpTo(s, |s|)
  }

  /** The orderings produced by the first `k` rounds of the loop: those that start with one
      of `s[0]`, ..., `s[k-1]`. */
  function PermsUpTo<T>(s: seq<T>, k: nat): seq<seq<T>>
    requires k <= |s|
    decreases |s|, 0, k
  {
    if k == 0 then []
    else PermsUpTo(s, k - 1) + PrependAll(s[k - 1], Permutations(Remove(s, k - 1)))
  }

  /** The loop of the source: `perms.push(...)` once per position, on top of a recursive
      call for the rest. */
  method ListPermutations<T>(arr: seq<T>) returns (perms: seq<seq<T>>)
    ensures perms == Permutations(arr)
    decreases |arr|
  {
    if |arr| == 0 {
      return [[]];
    }
    perms := [];
    for i := 0 to |arr|
      invariant perms == PermsUpTo(arr, i)
    {
      var rest := ListPermutations(arr[..i] + arr[i + 1..]);
      perms := perms + seq(|rest|, k requires 0 <= k < |rest| => [arr[i]] + rest[k]);
    }
  }

  // ---------------------------------------------------------------------------
  // Properties

  /** The empty sequence has exactly one ordering, itself. */
  lemma PermutationsOfEmpty<T>()
    ensures Permutations<T>([]) == [[]]
  {
  }

  lemma {:induction false} PermsUpToLength<T>(s: seq<T>, k: nat)
    requires 0 < |s| && k <= |s|
    ensures |PermsUpTo(s, k)| == k * Factorial(|s| - 1)
    decreases |s|, 0, k
  {
    if k > 0 {
      var f := Factorial(|s| - 1);
      PermsUpToLength(s, k - 1);
      PermutationsLength(Remove(s, k - 1));
      assert |PermsUpTo(s, k)| == |PermsUpTo(s, k - 1)| + |Permutations(Remove(s, k - 1))|;
      MulSucc(k, f);
    }
  }

  lemma MulSucc(k: nat, f: nat)
    requires 0 < k
    ensures k * f == (k - 1) * f + f
  {
  }

  /** A sequence of length n has n! orderings. */
  lemma {:induction false} PermutationsLength<T>(s: seq<T>)
    ensures |Permutations(s)| == Factorial(|s|)
    decreases |s|, 1, 0
  {
    if |s| > 0 {
      PermsUpToLength(s, |s|);
    }
  }

  lemma RemoveMultiset<T>(s: seq<T>, i: nat)
    requires i < |s|
    ensures multiset(s) == multiset(Remove(s, i)) + multiset{s[i]}
  {
    assert s == s[..i] + [s[i]] + s[i + 1..];
  }

  lemma {:induction false} PermsUpToRearranges<T>(s: seq<T>, k: nat, p: seq<T>)
    requires 0 < |s| && k <= |s| && p in PermsUpTo(s, k)
    ensures multiset(p) == multiset(s)
    decreases |s|, 0, k
  {
    assert k > 0;
    var rests := Permutations(Remove(s, k - 1));
    assert PermsUpTo(s, k) == PermsUpTo(s, k - 1) + PrependAll(s[k - 1], rests);
    if p !in PermsUpTo(s, k - 1) {
      assert p in PrependAll(s[k - 1], rests);
      var j :| 0 <= j < |rests| && p == [s[k - 1]] + rests[j];
      PermutationsRearrange(Remove(s, k - 1), rests[j]);
      RemoveMultiset(s, k - 1);
    } else {
      PermsUpToRearranges(s, k - 1, p);
    }
  }

  /** Every ordering is a rearrangement of the input: the same elements, as often. */
  lemma {:induction false} PermutationsRearrange<T>(s: seq<T>, p: seq<T>)
    requires p in Permutations(s)
    ensures multiset(p) == multiset(s) && |p| == |s|
    decreases |s|, 1, 0
  {
    if |s| > 0 {
      PermsUpToRearranges(s, |s|, p);
    }
    assert |multiset(p)| == |multiset(s)|;
  }

  /** Every listed ordering is a rearrangement of the input. */
  lemma PermutationsAllRearrange<T>(s: seq<T>)
    ensures forall k :: 0 <= k < |Permutations(s)| ==> multiset(Permutations(s)[k]) == multiset(s)
  {
    forall k | 0 <= k < |Permutations(s)| ensures multiset(Permutations(s)[k]) == multiset(s) {
      PermutationsRearrange(s, Permutations(s)[k]);
    }
  }

  lemma {:induction false} PermsUpToHead<T>(s: seq<T>, k: nat)
    requires 1 <= k <= |s|
    ensures |PermsUpTo(s, k)| > 0 && PermsUpTo(s, k)[0] == s
    decreases |s|, 0, k
  {
    if k == 1 {
      PermutationsHead(Remove(s, 0));
      assert [s[0]] + Remove(s, 0) == s;
    } else {
      PermsUpToHead(s, k - 1);
    }
  }

  /** The first ordering is the input itself (the loop starts with i = 0 and recurses on the
      rest), which is why substituting into `permutations[0]` and rebuilding the group
      yields the same candidate orderings. */
  lemma {:induction false} PermutationsHead<T>(s: seq<T>)
    ensures |Permutations(s)| > 0 && Permutations(s)[0] == s
    decreases |s|, 1, 0
  {
    if |s| > 0 {
      PermsUpToHead(s, |s|);
    }
  }

  lemma {:induction false} PermsUpToGrows<T>(s: seq<T>, k: nat, m: nat, p: seq<T>)
    requires k <= m <= |s| && p in PermsUpTo(s, k)
    ensures p in PermsUpTo(s, m)
    decreases m
  {
    if k < m {
      PermsUpToGrows(s, k, m - 1, p);
    }
  }

  /** Every rearrangement of the input is among its orderings. */
  lemma {:induction false} PermutationsComplete<T>(s: seq<T>, p: seq<T>)
    requires multiset(p) == multiset(s)
    ensures p in Permutations(s)
    decreases |s|
  {
    assert |p| == |multiset(p)| == |s|;
    if |s| == 0 {
      assert p == [];
    } else {
      assert p[0] in multiset(s);
      var i :| 0 <= i < |s| && s[i] == p[0];
      RemoveMultiset(s, i);
      RemoveMultiset(p, 0);
      assert Remove(p, 0) == p[1..];
      MultisetCancel(multiset(p[1..]), multiset(Remove(s, i)), p[0]);
      PermutationsComplete(Remove(s, i), p[1..]);
      PrependedIn(s, i, p);
    }
  }

  /** An ordering of the rest after `s[i]`, with `s[i]` in front, is an ordering of `s`. */
  lemma PrependedIn<T>(s: seq<T>, i: nat, p: seq<T>)
    requires i < |s| && 0 < |p| && p[0] == s[i] && p[1..] in Permutations(Remove(s, i))
    ensures p in Permutations(s)
  {
    var rests := Permutations(Remove(s, i));
    var j :| 0 <= j < |rests| && rests[j] == p[1..];
    var before, added := PermsUpTo(s, i), PrependAll(s[i], rests);
    assert p == [p[0]] + p[1..];
    assert added[j] == p;
    assert PermsUpTo(s, i + 1) == before + added;
    assert (before + added)[|before| + j] == p;
    PermsUpToGrows(s, i + 1, |s|, p);
  }

  // ---------------------------------------------------------------------------
  // Rearrangements

  /** Exchanging two positions keeps the values. */
  lemma SwapMultiset<T>(s: seq<T>, a: nat, b: nat)
    requires a < |s| && b < |s|
    ensures multiset(s[a := s[b]][b := s[a]]) == multiset(s)
  {
  }

  lemma MultisetCancel<T>(m: multiset<T>, n: multiset<T>, x: T)
    requires m + multiset{x} == n + multiset{x}
    ensures m == n
  {
    forall y ensures m[y] == n[y] {
      assert (m + multiset{x})[y] == (n + multiset{x})[y];
    }
  }
}
