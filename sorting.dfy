/**
 * Python's `sorted(xs, key=k)` for an integer key, as an insertion sort: the result is ordered by
 * the key and is a permutation of the input. Equal keys keep their input order, as in Python.
 */
module Sorting {

  /** The elements are in non-decreasing order of their keys. */
  predicate SortedBy<T>(xs: seq<T>, key: T -> int) {
    forall i, j :: 0 <= i < j < |xs| ==> key(xs[i]) <= key(xs[j])
  }

  /** `x` placed before the first element whose key is at least its own. */
  function InsertBy<T>(x: T, xs: seq<T>, key: T -> int): (r: seq<T>)
    ensures |r| == |xs| + 1
    decreases |xs|
  {
    if |xs| == 0 || key(x) <= key(xs[0]) then [x] + xs
    else [xs[0]] + InsertBy(x, xs[1..], key)
  }

  /** `sorted(xs, key=key)`. */
  function SortBy<T>(xs: seq<T>, key: T -> int): (r: seq<T>)
    ensures |r| == |xs|
    decreases |xs|
  {
    if |xs| == 0 then [] else InsertBy(xs[0], SortBy(xs[1..], key), key)
  }

  /** Inserting adds exactly the one element. */
  lemma {:induction false} InsertByPermutes<T>(x: T, xs: seq<T>, key: T -> int)
    ensures multiset(InsertBy(x, xs, key)) == multiset(xs) + multiset{x}
    decreases |xs|
  {
    if |xs| > 0 && key(x) > key(xs[0]) {
      InsertByPermutes(x, xs[1..], key);
      assert xs == [xs[0]] + xs[1..];
    }
  }

  /** Every key is at least `b`. */
  predicate KeysAtLeast<T>(xs: seq<T>, b: int, key: T -> int) {
    forall k :: 0 <= k < |xs| ==> b <= key(xs[k])
  }

  /** Inserting an element whose key is at least `b` keeps every key at least `b`. */
  lemma {:induction false} InsertByBound<T>(x: T, xs: seq<T>, b: int, key: T -> int)
    requires KeysAtLeast(xs, b, key) && b <= key(x)
    ensures KeysAtLeast(InsertBy(x, xs, key), b, key)
    decreases |xs|
  {
    if |xs| > 0 && key(x) > key(xs[0]) {
      InsertByBound(x, xs[1..], b, key);
    }
  }

  /** Inserting into an ordered sequence keeps it ordered. */
  lemma {:induction false} InsertBySorted<T>(x: T, xs: seq<T>, key: T -> int)
    requires SortedBy(xs, key)
    ensures SortedBy(InsertBy(x, xs, key), key)
    decreases |xs|
  {
    if |xs| > 0 && key(x) > key(xs[0]) {
      var rest := InsertBy(x, xs[1..], key);
      InsertBySorted(x, xs[1..], key);
      InsertByBound(x, xs[1..], key(xs[0]), key);
      assert KeysAtLeast(rest, key(xs[0]), key);
      forall i, j | 0 <= i < j < |rest| + 1 ensures key(([xs[0]] + rest)[i]) <= key(([xs[0]] + rest)[j]) {
        if i > 0 {
          assert ([xs[0]] + rest)[i] == rest[i - 1];
        }
        assert ([xs[0]] + rest)[j] == rest[j - 1];
      }
    }
  }

  /** The result of `sorted` is ordered by the key and has exactly the input's elements. */
  lemma {:induction false} SortByMeaning<T>(xs: seq<T>, key: T -> int)
    ensures SortedBy(SortBy(xs, key), key)
    ensures multiset(SortBy(xs, key)) == multiset(xs)
    decreases |xs|
  {
    if |xs| > 0 {
      SortByMeaning(xs[1..], key);
      InsertBySorted(xs[0], SortBy(xs[1..], key), key);
      InsertByPermutes(xs[0], SortBy(xs[1..], key), key);
      assert xs == [xs[0]] + xs[1..];
    }
  }

  /** The elements whose key is `k`, in their order in `xs`. */
  function WithKey<T>(xs: seq<T>, key: T -> int, k: int): seq<T>
    decreases |xs|
  {
    if |xs| == 0 then [] else (if key(xs[0]) == k then [xs[0]] else []) + WithKey(xs[1..], key, k)
  }

  /** An inserted element goes before every element of the same key. */
  lemma {:induction false} InsertByStable<T>(x: T, xs: seq<T>, key: T -> int, k: int)
    ensures WithKey(InsertBy(x, xs, key), key, k) == (if key(x) == k then [x] else []) + WithKey(xs, key, k)
    decreases |xs|
  {
    var hx := if key(x) == k then [x] else [];
    if |xs| == 0 || key(x) <= key(xs[0]) {
      assert ([x] + xs)[1..] == xs;
      assert WithKey([x] + xs, key, k) == hx + WithKey(xs, key, k);
    } else {
      var rest := InsertBy(x, xs[1..], key);
      var h0 := if key(xs[0]) == k then [xs[0]] else [];
      InsertByStable(x, xs[1..], key, k);
      assert ([xs[0]] + rest)[1..] == rest;
      assert WithKey([xs[0]] + rest, key, k) == h0 + WithKey(rest, key, k);
      assert h0 == [] || hx == [];
      assert WithKey(xs, key, k) == h0 + WithKey(xs[1..], key, k);
      assert h0 + (hx + WithKey(xs[1..], key, k)) == hx + (h0 + WithKey(xs[1..], key, k));
    }
  }

  /** `sorted` is stable: the elements of any one key keep their input order. */
  lemma {:induction false} SortByStable<T>(xs: seq<T>, key: T -> int, k: int)
    ensures WithKey(SortBy(xs, key), key, k) == WithKey(xs, key, k)
    decreases |xs|
  {
    if |xs| > 0 {
      SortByStable(xs[1..], key, k);
      InsertByStable(xs[0], SortBy(xs[1..], key), key, k);
    }
  }

  /** Sorting an ordered sequence changes nothing. */
  lemma {:induction false} SortBySorted<T>(xs: seq<T>, key: T -> int)
    requires SortedBy(xs, key)
    ensures SortBy(xs, key) == xs
    decreases |xs|
  {
    if |xs| > 0 {
      assert SortedBy(xs[1..], key) by {
        forall i, j | 0 <= i < j < |xs| - 1 ensures key(xs[1..][i]) <= key(xs[1..][j]) {
          assert xs[1..][i] == xs[i + 1] && xs[1..][j] == xs[j + 1];
        }
      }
      SortBySorted(xs[1..], key);
      assert xs == [xs[0]] + xs[1..];
    }
  }

  /** No two elements share an identity. */
  predicate DistinctBy<T, K(==)>(xs: seq<T>, id: T -> K) {
    forall i, j :: 0 <= i < j < |xs| ==> id(xs[i]) != id(xs[j])
  }

  /** An element of an insertion is the inserted one or an old one. */
  lemma {:induction false} InsertByElement<T>(x: T, xs: seq<T>, key: T -> int, y: T)
    ensures y in InsertBy(x, xs, key) <==> y == x || y in xs
    decreases |xs|
  {
    if |xs| > 0 && key(x) > key(xs[0]) {
      InsertByElement(x, xs[1..], key, y);
      assert xs == [xs[0]] + xs[1..];
    }
  }

  /** Inserting an element whose identity is new keeps the identities distinct. */
  lemma {:induction false} InsertByDistinct<T, K>(x: T, xs: seq<T>, key: T -> int, id: T -> K)
    requires DistinctBy(xs, id) && forall y :: y in xs ==> id(y) != id(x)
    ensures DistinctBy(InsertBy(x, xs, key), id)
    decreases |xs|
  {
    if |xs| > 0 && key(x) > key(xs[0]) {
      var rest := InsertBy(x, xs[1..], key);
      assert forall y :: y in xs[1..] ==> y in xs;
      assert DistinctBy(xs[1..], id) by {
        forall i, j | 0 <= i < j < |xs| - 1 ensures id(xs[1..][i]) != id(xs[1..][j]) {
          assert xs[1..][i] == xs[i + 1] && xs[1..][j] == xs[j + 1];
        }
      }
      InsertByDistinct(x, xs[1..], key, id);
      forall k | 0 <= k < |rest| ensures id(xs[0]) != id(rest[k]) {
        InsertByElement(x, xs[1..], key, rest[k]);
        assert rest[k] in rest;
        if rest[k] != x {
          assert rest[k] in xs[1..];
          var j :| 0 <= j < |xs[1..]| && xs[1..][j] == rest[k];
          assert xs[1..][j] == xs[j + 1];
        }
      }
      forall i, j | 0 <= i < j < |rest| + 1 ensures id(([xs[0]] + rest)[i]) != id(([xs[0]] + rest)[j]) {
        if i > 0 {
          assert ([xs[0]] + rest)[i] == rest[i - 1];
        }
        assert ([xs[0]] + rest)[j] == rest[j - 1];
      }
    }
  }

  /** Sorting keeps distinct identities distinct. */
  lemma {:induction false} SortByDistinct<T, K>(xs: seq<T>, key: T -> int, id: T -> K)
    requires DistinctBy(xs, id)
    ensures DistinctBy(SortBy(xs, key), id)
    decreases |xs|
  {
    if |xs| > 0 {
      assert DistinctBy(xs[1..], id) by {
        forall i, j | 0 <= i < j < |xs| - 1 ensures id(xs[1..][i]) != id(xs[1..][j]) {
          assert xs[1..][i] == xs[i + 1] && xs[1..][j] == xs[j + 1];
        }
      }
      SortByDistinct(xs[1..], key, id);
      SortByMeaning(xs[1..], key);
      forall y | y in SortBy(xs[1..], key) ensures id(y) != id(xs[0]) {
        assert y in multiset(SortBy(xs[1..], key));
        var j :| 0 <= j < |xs[1..]| && xs[1..][j] == y;
        assert xs[1..][j] == xs[j + 1];
      }
      InsertByDistinct(xs[0], SortBy(xs[1..], key), key, id);
    }
  }
}
