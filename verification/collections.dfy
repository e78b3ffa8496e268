/** Sequence combinators mirroring the JavaScript array methods the
    application is written with: `find`, `filter`, `map` (restricted to the
    elements a predicate selects) and `reduce` into a sum.

    JavaScript's `find` returns the FIRST match while `map` and `filter` visit
    EVERY element, so when ids repeat the two disagree; the model keeps that
    difference by using FindFirst for the former and MapWhere/Filter for the
    latter. */
module Collections {

  datatype Option<T> = None | Some(value: T)

  /** Index of the first element satisfying `p`, like `Array.prototype.findIndex`. */
  function FindFirst<T>(s: seq<T>, p: T -> bool): (r: Option<nat>)
    ensures r.None? <==> forall i :: 0 <= i < |s| ==> !p(s[i])
    ensures r.Some? ==> r.value < |s| && p(s[r.value])
    ensures r.Some? ==> forall j :: 0 <= j < r.value ==> !p(s[j])
  {
    if |s| == 0 then None
    else if p(s[0]) then Some(0)
    else match FindFirst(s[1..], p)
      case None => None
      case Some(k) => Some(k + 1)
  }

  /** The elements satisfying `keep`, in their original order. */
  function Filter<T>(s: seq<T>, keep: T -> bool): (r: seq<T>)
    ensures |r| <= |s|
    ensures forall i :: 0 <= i < |r| ==> r[i] in s && keep(r[i])
    ensures forall i :: 0 <= i < |s| && keep(s[i]) ==> s[i] in r
    ensures (exists i :: 0 <= i < |s| && !keep(s[i])) ==> |r| < |s|
  {
    if |s| == 0 then []
    else
      var front := Filter(s[..|s| - 1], keep);
      if keep(s[|s| - 1]) then front + [s[|s| - 1]] else front
  }

  /** Filtering distributes over concatenation, so the kept elements keep
      their relative order. */
  lemma {:induction false} FilterAppend<T>(a: seq<T>, b: seq<T>, keep: T -> bool)
    ensures Filter(a + b, keep) == Filter(a, keep) + Filter(b, keep)
    decreases |b|
  {
    if |b| == 0 {
      assert a + b == a;
    } else {
      var b' := b[..|b| - 1];
      assert (a + b)[..|a + b| - 1] == a + b';
      assert (a + b)[|a + b| - 1] == b[|b| - 1];
      FilterAppend(a, b', keep);
    }
  }

  /** A one-element sequence keeps its element exactly when it is selected;
      with `FilterAppend` this pins down every filter. */
  lemma FilterOne<T>(x: T, keep: T -> bool)
    ensures Filter([x], keep) == if keep(x) then [x] else []
  {
    assert [x][..0] == [];
  }

  /** When `keep` and `drop` select complementary elements, the sums over
      the two filtered sequences add up to the sum over the whole. */
  lemma {:induction false} FilterSplitsSum<T>(s: seq<T>, keep: T -> bool, drop: T -> bool, f: T -> int)
    requires forall i :: 0 <= i < |s| ==> keep(s[i]) != drop(s[i])
    ensures SumOf(Filter(s, keep), f) + SumOf(Filter(s, drop), f) == SumOf(s, f)
    decreases |s|
  {
    if |s| > 0 {
      var front, x := s[..|s| - 1], s[|s| - 1];
      FilterSplitsSum(front, keep, drop, f);
      var kept, dropped := Filter(front, keep), Filter(front, drop);
      if keep(x) {
        assert (kept + [x])[..|kept + [x]| - 1] == kept;
      } else {
        assert (dropped + [x])[..|dropped + [x]| - 1] == dropped;
      }
    }
  }

  /** `xs` lists `f` of the positions `ks`, one for one and in order. */
  predicate ListsAt<T(==)>(xs: seq<T>, ks: seq<nat>, f: nat -> T)
  {
    |xs| == |ks| && forall m :: 0 <= m < |ks| ==> xs[m] == f(ks[m])
  }

  /** Putting one more position in front lists its value in front. */
  lemma ListsAtCons<T>(x: T, xs: seq<T>, k: nat, ks: seq<nat>, f: nat -> T)
    requires ListsAt(xs, ks, f) && x == f(k)
    ensures ListsAt([x] + xs, [k] + ks, f)
  {
    forall m | 0 < m < |ks| + 1
      ensures ([x] + xs)[m] == f(([k] + ks)[m])
    {
      assert ([x] + xs)[m] == xs[m - 1] && ([k] + ks)[m] == ks[m - 1];
    }
  }

  /** A filter that rejects nothing is the identity. */
  lemma {:induction false} FilterKeepsAll<T>(s: seq<T>, keep: T -> bool)
    requires forall i :: 0 <= i < |s| ==> keep(s[i])
    ensures Filter(s, keep) == s
    decreases |s|
  {
    if |s| > 0 {
      FilterKeepsAll(s[..|s| - 1], keep);
      assert s[..|s| - 1] + [s[|s| - 1]] == s;
    }
  }

  /** Filtering a sequence whose elements have pairwise distinct keys leaves
      them pairwise distinct. */
  lemma {:induction false} FilterKeepsKeysDistinct<T, K>(s: seq<T>, keep: T -> bool, key: T -> K)
    requires forall i, j :: 0 <= i < j < |s| ==> key(s[i]) != key(s[j])
    ensures forall i, j :: 0 <= i < j < |Filter(s, keep)| ==> key(Filter(s, keep)[i]) != key(Filter(s, keep)[j])
    decreases |s|
  {
    if |s| > 0 {
      var front := s[..|s| - 1];
      FilterKeepsKeysDistinct(front, keep, key);
      var f := Filter(front, keep);
      forall i | 0 <= i < |f|
        ensures key(f[i]) != key(s[|s| - 1])
      {
        var j :| 0 <= j < |front| && front[j] == f[i];
        assert s[j] == f[i];
      }
    }
  }

  /** Replaces every element satisfying `p` by `f` of it and keeps the rest,
      as a conditional `map` does. */
  function MapWhere<T>(s: seq<T>, p: T -> bool, f: T -> T): (r: seq<T>)
    ensures |r| == |s|
    ensures forall i :: 0 <= i < |s| && !p(s[i]) ==> r[i] == s[i]
    ensures forall i :: 0 <= i < |s| && p(s[i]) ==> r[i] == f(s[i])
  {
    if |s| == 0 then []
    else [if p(s[0]) then f(s[0]) else s[0]] + MapWhere(s[1..], p, f)
  }

  /** Sum of `f` over the elements, as a `reduce` from 0 computes it: a left
      fold, so the recursion peels the LAST element. */
  function SumOf<T>(s: seq<T>, f: T -> int): int
  {
    if |s| == 0 then 0 else SumOf(s[..|s| - 1], f) + f(s[|s| - 1])
  }

  lemma {:induction false} SumOfAppend<T>(a: seq<T>, b: seq<T>, f: T -> int)
    ensures SumOf(a + b, f) == SumOf(a, f) + SumOf(b, f)
    decreases |b|
  {
    if |b| == 0 {
      assert a + b == a;
    } else {
      var b' := b[..|b| - 1];
      assert (a + b)[..|a + b| - 1] == a + b';
      assert (a + b)[|a + b| - 1] == b[|b| - 1];
      SumOfAppend(a, b', f);
    }
  }

  /** Replacing one element changes the sum by the difference of its terms. */
  lemma {:induction false} SumOfUpdate<T>(s: seq<T>, k: nat, x: T, f: T -> int)
    requires k < |s|
    ensures SumOf(s[k := x], f) == SumOf(s, f) - f(s[k]) + f(x)
    decreases |s|
  {
    var t := s[k := x];
    if k < |s| - 1 {
      SumOfUpdate(s[..|s| - 1], k, x, f);
      assert t[..|t| - 1] == s[..|s| - 1][k := x];
    } else {
      assert t[..|t| - 1] == s[..|s| - 1];
    }
  }

  /** Sums subtract term by term: when each term of `a` is a term of `b`
      less another, the sums differ the same way. */
  lemma {:induction false} SumOfDifference<T, U>(a: seq<T>, f: T -> int, b: seq<U>, g: U -> int, h: U -> int)
    requires |a| == |b|
    requires forall i :: 0 <= i < |a| ==> f(a[i]) == g(b[i]) - h(b[i])
    ensures SumOf(a, f) == SumOf(b, g) - SumOf(b, h)
    decreases |a|
  {
    if |a| > 0 {
      SumOfDifference(a[..|a| - 1], f, b[..|b| - 1], g, h);
    }
  }

  /** A sum whose terms vanish everywhere but at one position is that term. */
  lemma {:induction false} SumOfSingleTerm<T>(s: seq<T>, f: T -> int, j: nat)
    requires j < |s|
    requires forall i :: 0 <= i < |s| && i != j ==> f(s[i]) == 0
    ensures SumOf(s, f) == f(s[j])
    decreases |s|
  {
    if j < |s| - 1 {
      SumOfSingleTerm(s[..|s| - 1], f, j);
    } else {
      SumOfZero(s[..|s| - 1], f);
    }
  }

  /** A sum of zero terms is zero. */
  lemma {:induction false} SumOfZero<T>(s: seq<T>, f: T -> int)
    requires forall i :: 0 <= i < |s| ==> f(s[i]) == 0
    ensures SumOf(s, f) == 0
    decreases |s|
  {
    if |s| > 0 {
      SumOfZero(s[..|s| - 1], f);
    }
  }

  /** Sums compare term by term. */
  lemma {:induction false} SumOfMonotone<T>(a: seq<T>, f: T -> int, b: seq<T>, g: T -> int)
    requires |a| == |b|
    requires forall i :: 0 <= i < |a| ==> f(a[i]) <= g(b[i])
    ensures SumOf(a, f) <= SumOf(b, g)
    decreases |a|
  {
    if |a| > 0 {
      SumOfMonotone(a[..|a| - 1], f, b[..|b| - 1], g);
    }
  }

  /** A sum of non-negative terms is non-negative. */
  lemma {:induction false} SumOfNonNegative<T>(s: seq<T>, f: T -> int)
    requires forall i :: 0 <= i < |s| ==> f(s[i]) >= 0
    ensures SumOf(s, f) >= 0
    decreases |s|
  {
    if |s| > 0 {
      SumOfNonNegative(s[..|s| - 1], f);
    }
  }

  /** Where `b` satisfies `q` at every position `a` satisfies `p`, `b` has
      at least as many elements satisfying `q`. */
  lemma {:induction false} CountMonotone<T>(a: seq<T>, p: T -> bool, b: seq<T>, q: T -> bool)
    requires |a| == |b|
    requires forall i :: 0 <= i < |a| && p(a[i]) ==> q(b[i])
    ensures Count(a, p) <= Count(b, q)
    decreases |a|
  {
    if |a| > 0 {
      CountMonotone(a[..|a| - 1], p, b[..|b| - 1], q);
    }
  }

  /** Number of elements satisfying `p`. */
  function Count<T>(s: seq<T>, p: T -> bool): (n: nat)
    ensures n <= |s|
  {
    |Filter(s, p)|
  }
}
