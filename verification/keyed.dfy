/** Lists of records identified by a string key: the shape shared by the
    product, category and sub-category stores. Each of them inserts a record
    only when no record with the same key exists (`some(...)` then spread
    append) and updates by mapping a patch over the records whose key matches. */
module Keyed {
  import Seqs

  /** Some record of `xs` has key `k` (`xs.some(x => key(x) === k)`). */
  predicate HasKey<T>(xs: seq<T>, key: T -> string, k: string) {
    exists i :: 0 <= i < |xs| && key(xs[i]) == k
  }

  /** No two records share a key. */
  predicate UniqueKeys<T>(xs: seq<T>, key: T -> string) {
    forall i, j :: 0 <= i < j < |xs| ==> key(xs[i]) != key(xs[j])
  }

  /** Append `x` unless a record with its key is already present. */
  function AddIfAbsent<T>(xs: seq<T>, x: T, key: T -> string): (r: seq<T>)
    ensures HasKey(xs, key, key(x)) ==> r == xs
    ensures !HasKey(xs, key, key(x)) ==> |r| == |xs| + 1 && r[..|xs|] == xs && r[|xs|] == x
    ensures HasKey(r, key, key(x))
    ensures UniqueKeys(xs, key) ==> UniqueKeys(r, key)
  {
    if HasKey(xs, key, key(x)) then xs
    else
      var r := xs + [x];
      assert key(r[|xs|]) == key(x);
      r
  }

  /** `xs.map(x => key(x) === k ? f(x) : x)`. */
  function UpdateWhere<T>(xs: seq<T>, k: string, key: T -> string, f: T -> T): (r: seq<T>)
    ensures |r| == |xs|
    ensures forall i :: 0 <= i < |xs| && key(xs[i]) == k ==> r[i] == f(xs[i])
    ensures forall i :: 0 <= i < |xs| && key(xs[i]) != k ==> r[i] == xs[i]
  {
    if |xs| == 0 then []
    else [if key(xs[0]) == k then f(xs[0]) else xs[0]] + UpdateWhere(xs[1..], k, key, f)
  }

  /** An update whose patch keeps the key of every record keeps the keys unique. */
  lemma UpdatePreservesUnique<T>(xs: seq<T>, k: string, key: T -> string, f: T -> T)
    requires UniqueKeys(xs, key)
    requires forall x :: key(f(x)) == key(x)
    ensures UniqueKeys(UpdateWhere(xs, k, key, f), key)
  {
    var r := UpdateWhere(xs, k, key, f);
    forall i | 0 <= i < |r|
      ensures key(r[i]) == key(xs[i])
    {
    }
  }

  /** Updating a key that no record carries changes nothing. */
  lemma UpdateAbsent<T>(xs: seq<T>, k: string, key: T -> string, f: T -> T)
    requires !HasKey(xs, key, k)
    ensures UpdateWhere(xs, k, key, f) == xs
  {
  }

  // ---------------------------------------------------------------------
  // The list read as a map from key to record
  // ---------------------------------------------------------------------

  /** Each key mapped to the first record carrying it (what `find` returns). */
  function Index<T>(xs: seq<T>, key: T -> string): map<string, T> {
    if |xs| == 0 then map[] else Index(xs[1..], key)[key(xs[0]) := xs[0]]
  }

  /** The map's keys are exactly the keys present in the list. */
  lemma {:induction false} IndexKeys<T>(xs: seq<T>, key: T -> string)
    ensures forall k :: k in Index(xs, key) <==> HasKey(xs, key, k)
  {
    if |xs| > 0 {
      IndexKeys(xs[1..], key);
      forall k ensures HasKey(xs, key, k) ==> k == key(xs[0]) || HasKey(xs[1..], key, k) {
        if HasKey(xs, key, k) && k != key(xs[0]) {
          var i :| 0 <= i < |xs| && key(xs[i]) == k;
          assert key(xs[1..][i - 1]) == k;
        }
      }
      forall k ensures HasKey(xs[1..], key, k) ==> HasKey(xs, key, k) {
        if HasKey(xs[1..], key, k) {
          var i :| 0 <= i < |xs[1..]| && key(xs[1..][i]) == k;
          assert key(xs[i + 1]) == k;
        }
      }
      assert HasKey(xs, key, key(xs[0])) by { assert key(xs[0]) == key(xs[0]); }
    }
  }

  /** With unique keys every record is what its key maps to. */
  lemma {:induction false} IndexAt<T>(xs: seq<T>, key: T -> string, i: int)
    requires UniqueKeys(xs, key)
    requires 0 <= i < |xs|
    ensures key(xs[i]) in Index(xs, key) && Index(xs, key)[key(xs[i])] == xs[i]
  {
    if i > 0 {
      IndexAt(xs[1..], key, i - 1);
      assert xs[1..][i - 1] == xs[i];
    }
  }

  /** Appending a record with a fresh key adds exactly that entry. */
  lemma {:induction false} IndexAppend<T>(xs: seq<T>, x: T, key: T -> string)
    requires !HasKey(xs, key, key(x))
    ensures Index(xs + [x], key) == Index(xs, key)[key(x) := x]
  {
    if |xs| > 0 {
      assert (xs + [x])[1..] == xs[1..] + [x];
      forall i | 0 <= i < |xs[1..]| ensures key(xs[1..][i]) != key(x) {
        assert xs[1..][i] == xs[i + 1];
      }
      IndexAppend(xs[1..], x, key);
      assert key(xs[0]) != key(x) by { assert 0 < |xs|; }
    } else {
      assert xs + [x] == [x];
    }
  }

  /** Updating by key through a key-preserving patch updates exactly that entry of the map. */
  lemma {:induction false} IndexUpdate<T>(xs: seq<T>, k: string, key: T -> string, f: T -> T)
    requires forall x :: key(f(x)) == key(x)
    ensures var m := Index(xs, key);
      Index(UpdateWhere(xs, k, key, f), key) == if k in m then m[k := f(m[k])] else m
  {
    if |xs| > 0 {
      IndexUpdate(xs[1..], k, key, f);
      var r := UpdateWhere(xs, k, key, f);
      assert r[1..] == UpdateWhere(xs[1..], k, key, f);
    }
  }

  /** Records whose key is not `k` are present after the update exactly when they were
      before, provided the patch keeps keys. */
  lemma UpdateWhereOthers<T>(xs: seq<T>, k: string, key: T -> string, f: T -> T)
    requires forall x :: key(f(x)) == key(x)
    ensures forall z :: key(z) != k ==> (z in UpdateWhere(xs, k, key, f) <==> z in xs)
  {
    var r := UpdateWhere(xs, k, key, f);
    forall z | key(z) != k ensures z in r <==> z in xs {
      if z in r {
        var i :| 0 <= i < |r| && r[i] == z;
        assert xs[i] == z;
      }
      if z in xs {
        var i :| 0 <= i < |xs| && xs[i] == z;
        assert r[i] == z;
      }
    }
  }

  /** Every entry of the map is a record of the list, filed under its own key. */
  lemma {:induction false} IndexEntries<T>(xs: seq<T>, key: T -> string)
    ensures forall k :: k in Index(xs, key) ==> key(Index(xs, key)[k]) == k && Index(xs, key)[k] in xs
  {
    if |xs| > 0 {
      IndexEntries(xs[1..], key);
      assert forall z :: z in xs[1..] ==> z in xs;
    }
  }

  /** The entries of `m` whose record satisfies `p`. */
  function Passing<T>(m: map<string, T>, p: T -> bool): map<string, T> {
    map k | k in m && p(m[k]) :: m[k]
  }

  lemma PassingInsert<T>(m: map<string, T>, k: string, x: T, p: T -> bool)
    requires k !in m
    ensures Passing(m[k := x], p) == if p(x) then Passing(m, p)[k := x] else Passing(m, p)
  {
  }

  /** When every entry passes, nothing is filtered out. */
  lemma PassingAll<T>(m: map<string, T>, p: T -> bool)
    requires forall k :: k in m ==> p(m[k])
    ensures Passing(m, p) == m
  {
  }

  /** When every entry but `k` passes, overwriting `k` keeps it or drops it by `p`. */
  lemma PassingUpdate<T>(m: map<string, T>, k: string, y: T, p: T -> bool)
    requires forall j :: j in m && j != k ==> p(m[j])
    ensures Passing(m[k := y], p) == if p(y) then m[k := y] else m - {k}
  {
  }

  /** Filtering by "key differs from `k`" on a map filed by key removes `k`. */
  lemma PassingOthers<T>(m: map<string, T>, k: string, key: T -> string, p: T -> bool)
    requires forall j :: j in m ==> key(m[j]) == j
    requires forall x :: p(x) <==> key(x) != k
    ensures Passing(m, p) == m - {k}
  {
  }

  lemma IndexCons<T>(x: T, tail: seq<T>, key: T -> string)
    ensures Index([x] + tail, key) == Index(tail, key)[key(x) := x]
  {
    assert ([x] + tail)[1..] == tail;
  }

  /** Filtering a list with unique keys keeps exactly the map entries whose record passes. */
  lemma {:induction false} IndexFilter<T(!new)>(xs: seq<T>, key: T -> string, p: T -> bool)
    requires UniqueKeys(xs, key)
    ensures Index(Seqs.Filter(xs, p), key) == Passing(Index(xs, key), p)
  {
    if |xs| > 0 {
      var x := xs[0];
      var tail := xs[1..];
      forall i, j | 0 <= i < j < |tail| ensures key(tail[i]) != key(tail[j]) {
        assert tail[i] == xs[i + 1] && tail[j] == xs[j + 1];
      }
      forall i | 0 <= i < |tail| ensures key(tail[i]) != key(x) {
        assert tail[i] == xs[i + 1];
      }
      IndexFilter(tail, key, p);
      IndexKeys(tail, key);
      assert !HasKey(tail, key, key(x));
      PassingInsert(Index(tail, key), key(x), x, p);
      if p(x) {
        IndexCons(x, Seqs.Filter(tail, p), key);
      }
    }
  }
}
