/**
 * The table operations the frequency counters build on, stated over sequences of rows: a
 * boolean-mask selection, drop_duplicates (keeping the first row of each key), the distinct keys
 * of a groupby, and sort_values in descending order.
 */
module Tables {

  /** `df.loc[mask]`: the rows satisfying `p`, in their original order. */
  function Filter<T>(xs: seq<T>, p: T -> bool): (r: seq<T>)
    ensures |r| <= |xs|
    ensures forall i :: 0 <= i < |r| ==> p(r[i])
    decreases |xs|
  {
    if xs == [] then []
    else if p(xs[0]) then [xs[0]] + Filter(xs[1..], p)
    else Filter(xs[1..], p)
  }

  /** A selection keeps exactly the rows that satisfy its mask. */
  lemma {:induction false} FilterMembers<T>(xs: seq<T>, p: T -> bool, x: T)
    ensures x in Filter(xs, p) <==> x in xs && p(x)
    decreases |xs|
  {
    if xs != [] {
      FilterMembers(xs[1..], p, x);
      assert xs == [xs[0]] + xs[1..];
    }
  }

  /** Selecting from a concatenation selects from each part. */
  lemma {:induction false} FilterAppend<T>(xs: seq<T>, ys: seq<T>, p: T -> bool)
    ensures Filter(xs + ys, p) == Filter(xs, p) + Filter(ys, p)
    decreases |xs|
  {
    if xs != [] {
      assert (xs + ys)[0] == xs[0] && (xs + ys)[1..] == xs[1..] + ys;
      FilterAppend(xs[1..], ys, p);
      if p(xs[0]) {
        assert Filter(xs + ys, p) == [xs[0]] + Filter(xs[1..] + ys, p);
        assert Filter(xs, p) == [xs[0]] + Filter(xs[1..], p);
      }
    } else {
      assert xs + ys == ys;
    }
  }

  /** Selecting twice selects by both masks. */
  lemma {:induction false} FilterFilter<T>(xs: seq<T>, p: T -> bool, q: T -> bool)
    ensures Filter(Filter(xs, p), q) == Filter(xs, x => p(x) && q(x))
    decreases |xs|
  {
    if xs != [] {
      FilterFilter(xs[1..], p, q);
      if p(xs[0]) {
        assert Filter(xs, p) == [xs[0]] + Filter(xs[1..], p);
        assert Filter(xs, p)[1..] == Filter(xs[1..], p);
      }
    }
  }

  /** A selection is empty exactly when no row satisfies its mask. */
  lemma {:induction false} FilterEmpty<T>(xs: seq<T>, p: T -> bool)
    ensures Filter(xs, p) == [] <==> forall i :: 0 <= i < |xs| ==> !p(xs[i])
    decreases |xs|
  {
    if xs != [] {
      FilterEmpty(xs[1..], p);
      assert forall i :: 1 <= i < |xs| ==> xs[i] == xs[1..][i - 1];
    }
  }

  /** A mask every row satisfies selects the whole table. */
  lemma {:induction false} FilterAll<T>(xs: seq<T>, p: T -> bool)
    requires forall i :: 0 <= i < |xs| ==> p(xs[i])
    ensures Filter(xs, p) == xs
    decreases |xs|
  {
    if xs != [] {
      FilterAll(xs[1..], p);
      assert xs == [xs[0]] + xs[1..];
    }
  }

  /** Two tables holding the same rows, counted with multiplicity, have the same length and members. */
  lemma SameRows<T>(xs: seq<T>, ys: seq<T>)
    requires multiset(xs) == multiset(ys)
    ensures |xs| == |ys|
    ensures forall x :: x in xs <==> x in ys
  {
    assert |multiset(xs)| == |multiset(ys)|;
    forall x ensures x in xs <==> x in ys {
      assert x in xs <==> x in multiset(xs);
      assert x in ys <==> x in multiset(ys);
    }
  }

  /** The set of keys of a table. */
  function KeysOf<T, K>(xs: seq<T>, key: T -> K): set<K> {
    set i | 0 <= i < |xs| :: key(xs[i])
  }

  lemma KeysOfAppend<T, K>(xs: seq<T>, ys: seq<T>, key: T -> K)
    ensures KeysOf(xs + ys, key) == KeysOf(xs, key) + KeysOf(ys, key)
  {
    var l, r := KeysOf(xs + ys, key), KeysOf(xs, key) + KeysOf(ys, key);
    forall k | k in l ensures k in r {
      var i :| 0 <= i < |xs + ys| && key((xs + ys)[i]) == k;
      if i >= |xs| {
        assert key(ys[i - |xs|]) == k;
      }
    }
    forall k | k in r ensures k in l {
      if k in KeysOf(ys, key) {
        var i :| 0 <= i < |ys| && key(ys[i]) == k;
        assert (xs + ys)[|xs| + i] == ys[i];
      } else {
        var i :| 0 <= i < |xs| && key(xs[i]) == k;
        assert (xs + ys)[i] == xs[i];
      }
    }
  }

  lemma KeysOfSingle<T, K>(x: T, key: T -> K)
    ensures KeysOf([x], key) == {key(x)}
  {
    assert key([x][0]) in KeysOf([x], key);
  }

  /** Pairwise distinct keys. */
  predicate DistinctKeys<T, K(==)>(xs: seq<T>, key: T -> K) {
    forall i, j :: 0 <= i < j < |xs| ==> key(xs[i]) != key(xs[j])
  }

  lemma {:induction false} KeysOfSize<T, K>(xs: seq<T>, key: T -> K)
    ensures |KeysOf(xs, key)| <= |xs|
    ensures |KeysOf(xs, key)| == |xs| <==> DistinctKeys(xs, key)
    decreases |xs|
  {
    if xs == [] {
      assert KeysOf(xs, key) == {};
    } else {
      var rest := xs[1..];
      assert xs == [xs[0]] + rest;
      KeysOfAppend([xs[0]], rest, key);
      KeysOfSingle(xs[0], key);
      KeysOfSize(rest, key);
      assert forall i :: 1 <= i < |xs| ==> xs[i] == rest[i - 1];
      if key(xs[0]) in KeysOf(rest, key) {
        var j :| 0 <= j < |rest| && key(rest[j]) == key(xs[0]);
        assert key(xs[0]) == key(xs[j + 1]);
      } else {
        assert |KeysOf(xs, key)| == 1 + |KeysOf(rest, key)|;
        if DistinctKeys(rest, key) {
          forall i, j | 0 <= i < j < |xs| ensures key(xs[i]) != key(xs[j]) {
            if i == 0 {
              assert key(rest[j - 1]) in KeysOf(rest, key);
            }
          }
        }
      }
    }
  }

  /** A selection from a table with distinct keys has distinct keys. */
  lemma {:induction false} FilterDistinct<T, K>(xs: seq<T>, p: T -> bool, key: T -> K)
    requires DistinctKeys(xs, key)
    ensures DistinctKeys(Filter(xs, p), key)
    decreases |xs|
  {
    if xs != [] {
      var rest := Filter(xs[1..], p);
      FilterDistinct(xs[1..], p, key);
      if p(xs[0]) {
        var r := [xs[0]] + rest;
        forall i, j | 0 <= i < j < |r| ensures key(r[i]) != key(r[j]) {
          if i == 0 {
            FilterMembers(xs[1..], p, rest[j - 1]);
            var k :| 0 <= k < |xs[1..]| && xs[1..][k] == rest[j - 1];
            assert xs[k + 1] == rest[j - 1];
          } else {
            assert r[i] == rest[i - 1] && r[j] == rest[j - 1];
          }
        }
      }
    }
  }

  /** Rearranging a table keeps its keys distinct. */
  lemma PermutationDistinct<T, K>(xs: seq<T>, ys: seq<T>, key: T -> K)
    requires multiset(xs) == multiset(ys) && DistinctKeys(xs, key)
    ensures DistinctKeys(ys, key)
  {
    SameRows(xs, ys);
    var a, b := KeysOf(xs, key), KeysOf(ys, key);
    forall k | k in a ensures k in b {
      if k in a {
        var i :| 0 <= i < |xs| && key(xs[i]) == k;
        assert xs[i] in ys;
      }
    }
    forall k | k in b ensures k in a {
      if k in b {
        var i :| 0 <= i < |ys| && key(ys[i]) == k;
        assert ys[i] in xs;
      }
    }
    assert a == b;
    KeysOfSize(xs, key);
    KeysOfSize(ys, key);
  }

  /** The rows of `xs` whose key is not yet in `seen`, each key kept at its first row. */
  function DedupFrom<T, K(==)>(xs: seq<T>, key: T -> K, seen: set<K>): (r: seq<T>)
    ensures |r| <= |xs|
    ensures forall x :: x in r ==> x in xs
    decreases |xs|
  {
    if xs == [] then []
    else if key(xs[0]) in seen then DedupFrom(xs[1..], key, seen)
    else [xs[0]] + DedupFrom(xs[1..], key, seen + {key(xs[0])})
  }

  /** `drop_duplicates(subset=...)` with pandas' default keep='first'. */
  function Dedup<T, K(==)>(xs: seq<T>, key: T -> K): (r: seq<T>)
    ensures |r| <= |xs|
    ensures forall x :: x in r ==> x in xs
  {
    DedupFrom(xs, key, {})
  }

  lemma {:induction false} DedupFromSpec<T, K>(xs: seq<T>, key: T -> K, seen: set<K>)
    ensures var r := DedupFrom(xs, key, seen);
      && DistinctKeys(r, key)
      && KeysOf(r, key) == KeysOf(xs, key) - seen
      && (forall x :: x in r ==> x in xs)
    decreases |xs|
  {
    if xs != [] {
      assert xs == [xs[0]] + xs[1..];
      KeysOfAppend([xs[0]], xs[1..], key);
      KeysOfSingle(xs[0], key);
      if key(xs[0]) in seen {
        DedupFromSpec(xs[1..], key, seen);
      } else {
        var rest := DedupFrom(xs[1..], key, seen + {key(xs[0])});
        DedupFromSpec(xs[1..], key, seen + {key(xs[0])});
        KeysOfAppend([xs[0]], rest, key);
        KeysOfSingle(xs[0], key);
        var r := [xs[0]] + rest;
        forall i, j | 0 <= i < j < |r| ensures key(r[i]) != key(r[j]) {
          if i == 0 {
            assert key(rest[j - 1]) in KeysOf(rest, key);
          } else {
            assert r[i] == rest[i - 1] && r[j] == rest[j - 1];
          }
        }
      }
    }
  }

  /**
   * drop_duplicates keeps every key of its input once and only rows of its input: the result
   * has pairwise distinct keys and exactly the input's keys.
   */
  lemma DedupSpec<T, K>(xs: seq<T>, key: T -> K)
    ensures DistinctKeys(Dedup(xs, key), key)
    ensures KeysOf(Dedup(xs, key), key) == KeysOf(xs, key)
    ensures forall x :: x in Dedup(xs, key) ==> x in xs
  {
    DedupFromSpec(xs, key, {});
  }

  lemma {:induction false} DedupFromSnoc<T, K>(xs: seq<T>, x: T, key: T -> K, seen: set<K>)
    ensures DedupFrom(xs + [x], key, seen)
         == DedupFrom(xs, key, seen) + (if key(x) in seen + KeysOf(xs, key) then [] else [x])
    decreases |xs|
  {
    if xs == [] {
      assert KeysOf(xs, key) == {};
      assert [x][1..] == [];
    } else {
      assert (xs + [x])[1..] == xs[1..] + [x];
      assert xs == [xs[0]] + xs[1..];
      KeysOfAppend([xs[0]], xs[1..], key);
      KeysOfSingle(xs[0], key);
      if key(xs[0]) in seen {
        DedupFromSnoc(xs[1..], x, key, seen);
      } else {
        DedupFromSnoc(xs[1..], x, key, seen + {key(xs[0])});
      }
    }
  }

  /**
   * keep='first': appending a row whose key already occurs leaves the result unchanged, and a row
   * with a new key is appended. With `Dedup([]) == []` this determines drop_duplicates.
   */
  lemma DedupSnoc<T, K>(xs: seq<T>, x: T, key: T -> K)
    ensures Dedup(xs + [x], key) == Dedup(xs, key) + (if key(x) in KeysOf(xs, key) then [] else [x])
  {
    DedupFromSnoc(xs, x, key, {});
  }

  /** The distinct keys of a table in order of first appearance (the groups of a groupby). */
  function Distinct<K(==)>(ks: seq<K>): (r: seq<K>)
    ensures |r| <= |ks|
    ensures forall k :: k in r ==> k in ks
  {
    Dedup(ks, k => k)
  }

  /** The groups are the distinct keys, each once. */
  lemma DistinctSpec<K>(ks: seq<K>)
    ensures forall i, j :: 0 <= i < j < |Distinct(ks)| ==> Distinct(ks)[i] != Distinct(ks)[j]
    ensures forall k :: k in Distinct(ks) <==> k in ks
  {
    DedupSpec(ks, k => k);
    var r := Distinct(ks);
    forall k ensures k in r <==> k in ks {
      if k in ks {
        var i :| 0 <= i < |ks| && ks[i] == k;
        assert k in KeysOf(ks, k => k);
        var j :| 0 <= j < |r| && r[j] == k;
      }
    }
  }

  /** Sorted by `key` in non-increasing order. */
  predicate NonIncreasing<T>(xs: seq<T>, key: T -> int) {
    forall i, j :: 0 <= i < j < |xs| ==> key(xs[i]) >= key(xs[j])
  }

  /** Insert `x` into a non-increasing sequence, before the first row with a smaller key. */
  function Insert<T(==)>(x: T, xs: seq<T>, key: T -> int): (r: seq<T>)
    requires NonIncreasing(xs, key)
    ensures NonIncreasing(r, key)
    ensures multiset(r) == multiset(xs) + multiset{x}
    ensures r != [] && (key(r[0]) == key(x) || (xs != [] && key(r[0]) == key(xs[0])))
    decreases |xs|
  {
    if xs == [] || key(x) >= key(xs[0]) then [x] + xs
    else
      var rest := Insert(x, xs[1..], key);
      assert xs == [xs[0]] + xs[1..];
      assert forall j :: 0 <= j < |rest| ==> key(rest[j]) <= key(rest[0]) <= key(xs[0]);
      [xs[0]] + rest
  }

  /** `sort_values(by=key, ascending=False)`: the same rows, in non-increasing order of their key. */
  function SortDesc<T(==)>(xs: seq<T>, key: T -> int): (r: seq<T>)
    ensures NonIncreasing(r, key)
    ensures multiset(r) == multiset(xs)
    decreases |xs|
  {
    if xs == [] then []
    else
      assert xs == [xs[0]] + xs[1..];
      Insert(xs[0], SortDesc(xs[1..], key), key)
  }

  /** Sorting keeps the rows, their keys, and their keys' distinctness. */
  lemma SortDescKeys<T, K>(xs: seq<T>, sortKey: T -> int, key: T -> K)
    ensures var ys := SortDesc(xs, sortKey);
      && (forall x :: x in ys <==> x in xs)
      && KeysOf(ys, key) == KeysOf(xs, key)
      && (DistinctKeys(xs, key) ==> DistinctKeys(ys, key))
  {
    var ys := SortDesc(xs, sortKey);
    SameRows(xs, ys);
    var a, b := KeysOf(xs, key), KeysOf(ys, key);
    forall k | k in a ensures k in b {
      var i :| 0 <= i < |xs| && key(xs[i]) == k;
      assert xs[i] in ys;
    }
    forall k | k in b ensures k in a {
      var i :| 0 <= i < |ys| && key(ys[i]) == k;
      assert ys[i] in xs;
    }
    if DistinctKeys(xs, key) {
      PermutationDistinct(xs, ys, key);
    }
  }
}
