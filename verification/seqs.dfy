/** Sequence helpers shared by the stores, the views and the handlers:
    duplicate-free sequences and first-occurrence de-duplication (what
    `Array.from(new Set(xs))` computes), `Array.prototype.filter`, and sums
    (`reduce((acc, x) => acc + f(x), 0)`) with their invariance under
    reordering. */
module Seqs {

  // ---------------------------------------------------------------------
  // Duplicate-free sequences
  // ---------------------------------------------------------------------

  predicate NoDup<T(==)>(xs: seq<T>) {
    forall i, j :: 0 <= i < j < |xs| ==> xs[i] != xs[j]
  }

  /** `xs` with `x` appended unless it is already present. */
  function AppendNew<T(==)>(xs: seq<T>, x: T): seq<T> {
    if x in xs then xs else xs + [x]
  }

  /** Walk `xs` left to right, appending each element not yet in `seen`. */
  function DedupFrom<T(==,!new)>(seen: seq<T>, xs: seq<T>): (r: seq<T>)
    ensures NoDup(seen) ==> NoDup(r)
    ensures forall z :: z in r <==> z in seen || z in xs
    ensures |seen| <= |r| && r[..|seen|] == seen
    decreases |xs|
  {
    if |xs| == 0 then seen else DedupFrom(AppendNew(seen, xs[0]), xs[1..])
  }

  /** `Array.from(new Set(xs))`: the distinct elements of `xs`, each at its first occurrence. */
  function Dedup<T(==,!new)>(xs: seq<T>): (r: seq<T>)
    ensures NoDup(r)
    ensures forall z :: z in r <==> z in xs
  {
    DedupFrom([], xs)
  }

  lemma {:induction false} DedupFromNoDup<T(!new)>(seen: seq<T>, xs: seq<T>)
    requires NoDup(seen + xs)
    ensures DedupFrom(seen, xs) == seen + xs
    decreases |xs|
  {
    if |xs| > 0 {
      assert xs[0] == (seen + xs)[|seen|];
      assert xs[0] !in seen by {
        forall i | 0 <= i < |seen| ensures seen[i] != xs[0] {
          assert seen[i] == (seen + xs)[i];
        }
      }
      assert seen + xs == (seen + [xs[0]]) + xs[1..];
      DedupFromNoDup(seen + [xs[0]], xs[1..]);
    }
  }

  /** De-duplicating a sequence that has no duplicates leaves it as it is. */
  lemma DedupOfNoDup<T(!new)>(xs: seq<T>)
    requires NoDup(xs)
    ensures Dedup(xs) == xs
  {
    assert [] + xs == xs;
    DedupFromNoDup([], xs);
  }

  lemma {:induction false} DedupFromConcat<T(!new)>(seen: seq<T>, a: seq<T>, b: seq<T>)
    ensures DedupFrom(seen, a + b) == DedupFrom(DedupFrom(seen, a), b)
    decreases |a|
  {
    if |a| > 0 {
      assert (a + b)[0] == a[0];
      assert (a + b)[1..] == a[1..] + b;
      DedupFromConcat(AppendNew(seen, a[0]), a[1..], b);
    } else {
      assert a + b == b;
    }
  }

  lemma {:induction false} DedupFromCovered<T(!new)>(seen: seq<T>, xs: seq<T>)
    requires forall z :: z in xs ==> z in seen
    ensures DedupFrom(seen, xs) == seen
    decreases |xs|
  {
    if |xs| > 0 {
      assert xs[0] in seen;
      DedupFromCovered(seen, xs[1..]);
    }
  }

  /** Merging the same new elements a second time changes nothing. */
  lemma MergeIdempotent<T(!new)>(existing: seq<T>, incoming: seq<T>)
    ensures Dedup(Dedup(existing + incoming) + incoming) == Dedup(existing + incoming)
  {
    var m := Dedup(existing + incoming);
    assert [] + (m + incoming) == m + incoming;
    DedupFromConcat([], m, incoming);
    DedupOfNoDup(m);
    DedupFromCovered(m, incoming);
  }

  /** When the existing elements are distinct they are kept, in order, as a prefix
      of the merge, and only elements not already present follow them. */
  lemma MergeKeepsExisting<T(!new)>(existing: seq<T>, incoming: seq<T>)
    requires NoDup(existing)
    ensures var m := Dedup(existing + incoming);
      |existing| <= |m| && m[..|existing|] == existing
      && (forall k :: |existing| <= k < |m| ==> m[k] !in existing && m[k] in incoming)
  {
    DedupFromConcat([], existing, incoming);
    DedupFromNoDup([], existing);
    assert [] + existing == existing;
    var m := Dedup(existing + incoming);
    assert m == DedupFrom(existing, incoming);
    forall k | |existing| <= k < |m|
      ensures m[k] !in existing && m[k] in incoming
    {
      forall i | 0 <= i < |existing|
        ensures existing[i] != m[k]
      {
        assert existing[i] == m[..|existing|][i] == m[i];
      }
    }
  }

  // ---------------------------------------------------------------------
  // Filtering
  // ---------------------------------------------------------------------

  /** `xs.filter(p)`. */
  function Filter<T(!new)>(xs: seq<T>, p: T -> bool): (r: seq<T>)
    ensures |r| <= |xs|
    ensures forall z :: z in r <==> z in xs && p(z)
    ensures multiset(r) <= multiset(xs)
  {
    if |xs| == 0 then []
    else if p(xs[0]) then
      assert xs == [xs[0]] + xs[1..];
      [xs[0]] + Filter(xs[1..], p)
    else
      assert xs == [xs[0]] + xs[1..];
      Filter(xs[1..], p)
  }

  /** A filter every element passes keeps the sequence as it is. */
  lemma {:induction false} FilterKeepsAll<T(!new)>(xs: seq<T>, p: T -> bool)
    requires forall i :: 0 <= i < |xs| ==> p(xs[i])
    ensures Filter(xs, p) == xs
    decreases |xs|
  {
    if |xs| > 0 {
      FilterKeepsAll(xs[1..], p);
    }
  }

  /** A filter no element passes keeps nothing. */
  lemma {:induction false} FilterKeepsNone<T(!new)>(xs: seq<T>, p: T -> bool)
    requires forall i :: 0 <= i < |xs| ==> !p(xs[i])
    ensures Filter(xs, p) == []
    decreases |xs|
  {
    if |xs| > 0 {
      FilterKeepsNone(xs[1..], p);
    }
  }

  /** `r` is `xs` with some elements left out, the rest kept in order. */
  predicate Subsequence<T(==)>(r: seq<T>, xs: seq<T>)
    decreases |xs|
  {
    if |r| == 0 then true
    else if |xs| == 0 then false
    else if r[0] == xs[0] then Subsequence(r[1..], xs[1..])
    else Subsequence(r, xs[1..])
  }

  lemma {:induction false} FilterSubsequence<T(!new)>(xs: seq<T>, p: T -> bool)
    ensures Subsequence(Filter(xs, p), xs)
    decreases |xs|
  {
    if |xs| > 0 {
      FilterSubsequence(xs[1..], p);
    }
  }

  // ---------------------------------------------------------------------
  // Sums
  // ---------------------------------------------------------------------

  /** Taking the first element off `a` and a copy of it off `b` keeps the multisets equal. */
  lemma MultisetRemove<T>(a: seq<T>, b: seq<T>, j: int)
    requires |a| > 0 && 0 <= j < |b| && b[j] == a[0]
    requires multiset(a) == multiset(b)
    ensures multiset(a[1..]) == multiset(b[..j] + b[j + 1..])
  {
    var x := a[0];
    assert a == [x] + a[1..];
    assert b == b[..j] + [x] + b[j + 1..];
    var rest := multiset(b[..j]) + multiset(b[j + 1..]);
    assert multiset(a) == multiset{x} + multiset(a[1..]);
    assert multiset(b) == multiset{x} + rest;
    assert multiset(a[1..]) == multiset(a) - multiset{x};
    assert rest == multiset(b) - multiset{x};
    assert multiset(b[..j] + b[j + 1..]) == rest;
  }

  /** `xs.reduce((acc, x) => acc + f(x), 0)` over integers. */
  function SumInt<T>(xs: seq<T>, f: T -> int): int {
    if |xs| == 0 then 0 else f(xs[0]) + SumInt(xs[1..], f)
  }

  lemma {:induction false} SumIntConcat<T>(a: seq<T>, b: seq<T>, f: T -> int)
    ensures SumInt(a + b, f) == SumInt(a, f) + SumInt(b, f)
    decreases |a|
  {
    if |a| > 0 {
      assert (a + b)[0] == a[0];
      assert (a + b)[1..] == a[1..] + b;
      SumIntConcat(a[1..], b, f);
    } else {
      assert a + b == b;
    }
  }

  /** The sum around one element: what comes before it, the element, what comes after. */
  lemma SumIntSplice<T>(a: seq<T>, x: T, b: seq<T>, f: T -> int)
    ensures SumInt(a + [x] + b, f) == SumInt(a, f) + f(x) + SumInt(b, f)
  {
    SumIntConcat(a + [x], b, f);
    SumIntConcat(a, [x], f);
  }

  /** Reordering the elements does not change the sum. */
  lemma {:induction false} SumIntPermutation<T>(a: seq<T>, b: seq<T>, f: T -> int)
    requires multiset(a) == multiset(b)
    ensures SumInt(a, f) == SumInt(b, f)
    decreases |a|
  {
    if |a| > 0 {
      var j :| 0 <= j < |b| && b[j] == a[0] by {
        assert a[0] in multiset(b);
      }
      var rest := b[..j] + b[j + 1..];
      MultisetRemove(a, b, j);
      SumIntPermutation(a[1..], rest, f);
      assert b == b[..j] + ([a[0]] + b[j + 1..]);
      SumIntConcat(b[..j], [a[0]] + b[j + 1..], f);
      SumIntConcat(b[..j], b[j + 1..], f);
      assert ([a[0]] + b[j + 1..])[1..] == b[j + 1..];
    } else {
      assert |b| == 0;
    }
  }

  /** `xs.reduce((acc, x) => acc + f(x), 0)` over exact reals. */
  function SumReal<T>(xs: seq<T>, f: T -> real): real {
    if |xs| == 0 then 0.0 else f(xs[0]) + SumReal(xs[1..], f)
  }

  lemma {:induction false} SumRealConcat<T>(a: seq<T>, b: seq<T>, f: T -> real)
    ensures SumReal(a + b, f) == SumReal(a, f) + SumReal(b, f)
    decreases |a|
  {
    if |a| > 0 {
      assert (a + b)[0] == a[0];
      assert (a + b)[1..] == a[1..] + b;
      SumRealConcat(a[1..], b, f);
    } else {
      assert a + b == b;
    }
  }

  /** The sum around one element: what comes before it, the element, what comes after. */
  lemma SumRealSplice<T>(a: seq<T>, x: T, b: seq<T>, f: T -> real)
    ensures SumReal(a + [x] + b, f) == SumReal(a, f) + f(x) + SumReal(b, f)
  {
    SumRealConcat(a + [x], b, f);
    SumRealConcat(a, [x], f);
  }

  /** Two sequences whose elements contribute pairwise equal amounts have equal sums. */
  lemma {:induction false} SumRealPointwise<A, B>(xs: seq<A>, f: A -> real, ys: seq<B>, g: B -> real)
    requires |xs| == |ys|
    requires forall i :: 0 <= i < |xs| ==> f(xs[i]) == g(ys[i])
    ensures SumReal(xs, f) == SumReal(ys, g)
    decreases |xs|
  {
    if |xs| > 0 {
      SumRealPointwise(xs[1..], f, ys[1..], g);
    }
  }

  /** Reordering the elements does not change the sum. */
  lemma {:induction false} SumRealPermutation<T>(a: seq<T>, b: seq<T>, f: T -> real)
    requires multiset(a) == multiset(b)
    ensures SumReal(a, f) == SumReal(b, f)
    decreases |a|
  {
    if |a| > 0 {
      var j :| 0 <= j < |b| && b[j] == a[0] by {
        assert a[0] in multiset(b);
      }
      var rest := b[..j] + b[j + 1..];
      MultisetRemove(a, b, j);
      SumRealPermutation(a[1..], rest, f);
      assert b == b[..j] + ([a[0]] + b[j + 1..]);
      SumRealConcat(b[..j], [a[0]] + b[j + 1..], f);
      SumRealConcat(b[..j], b[j + 1..], f);
      assert ([a[0]] + b[j + 1..])[1..] == b[j + 1..];
    } else {
      assert |b| == 0;
    }
  }
}
