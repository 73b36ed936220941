/** Stable sorting of a sequence by an integer key.

    JavaScript's `Array.prototype.sort` is stable, so a comparator of the
    form `(a, b) => key(a) - key(b)` orders by `key` ascending and keeps the
    original order among equal keys.  `SortBy` models exactly that, as an
    insertion sort, and its contract pins the result down completely: it is
    sorted, it is a permutation, and for every key value the subsequence of
    elements carrying that key is the same as in the input. */
module Sorting {
  import opened Common

  /** A non-empty sequence is its front followed by its last element. */
  lemma SplitLast<T>(s: seq<T>)
    requires s != []
    ensures s == s[..|s| - 1] + [s[|s| - 1]]
  {
  }

  lemma AppendAssociates<T>(x: seq<T>, y: seq<T>, z: seq<T>)
    ensures x + y + z == x + (y + z)
  {
  }

  /** `s` is non-decreasing by `key`. */
  ghost predicate SortedBy<T>(s: seq<T>, key: T -> int)
  {
    forall i, j :: 0 <= i < j < |s| ==> key(s[i]) <= key(s[j])
  }

  /** The elements of `s` whose key is `v`, in their order in `s`. */
  function WithKey<T>(s: seq<T>, key: T -> int, v: int): (r: seq<T>)
    ensures |r| <= |s|
  {
    if s == [] then []
    else WithKey(s[..|s| - 1], key, v) + (if key(s[|s| - 1]) == v then [s[|s| - 1]] else [])
  }

  /** Sum of `f` over the elements of `s`. */
  function SumBy<T>(s: seq<T>, f: T -> int): int
  {
    if s == [] then 0 else SumBy(s[..|s| - 1], f) + f(s[|s| - 1])
  }

  /** Inserts `x` behind every element whose key is at most `key(x)`,
      scanning from the back. */
  function Insert<T>(r: seq<T>, x: T, key: T -> int): (r': seq<T>)
    ensures |r'| == |r| + 1
    ensures multiset(r') == multiset(r) + multiset{x}
  {
    if r == [] || key(r[|r| - 1]) <= key(x) then r + [x]
    else
      SplitLast(r);
      Insert(r[..|r| - 1], x, key) + [r[|r| - 1]]
  }

  lemma {:induction false} InsertSorted<T>(r: seq<T>, x: T, key: T -> int)
    requires SortedBy(r, key)
    ensures SortedBy(Insert(r, x, key), key)
    decreases |r|
  {
    if r == [] || key(r[|r| - 1]) <= key(x) {
    } else {
      var init, last := r[..|r| - 1], r[|r| - 1];
      var ins := Insert(init, x, key);
      InsertSorted(init, x, key);
      forall i | 0 <= i < |ins|
        ensures key(ins[i]) <= key(last)
      {
        assert ins[i] in multiset(ins);
        if ins[i] != x {
          assert ins[i] in init;
          var j :| 0 <= j < |init| && init[j] == ins[i];
          assert r[j] == init[j];
        }
      }
    }
  }

  /** Filtering distributes over appending one element. */
  lemma WithKeySnoc<T>(s: seq<T>, x: T, key: T -> int, v: int)
    ensures WithKey(s + [x], key, v) == WithKey(s, key, v) + (if key(x) == v then [x] else [])
  {
    assert (s + [x])[..|s|] == s;
  }

  lemma {:induction false} InsertWithKey<T>(r: seq<T>, x: T, key: T -> int, v: int)
    ensures WithKey(Insert(r, x, key), key, v)
         == WithKey(r, key, v) + (if key(x) == v then [x] else [])
    decreases |r|
  {
    if r == [] || key(r[|r| - 1]) <= key(x) {
      WithKeySnoc(r, x, key, v);
    } else {
      var init, last := r[..|r| - 1], r[|r| - 1];
      SplitLast(r);
      var ins := Insert(init, x, key);
      var X := if key(x) == v then [x] else [];
      var L := if key(last) == v then [last] else [];
      assert Insert(r, x, key) == ins + [last];
      InsertWithKey(init, x, key, v);
      WithKeySnoc(ins, last, key, v);
      WithKeySnoc(init, last, key, v);
      assert WithKey(r, key, v) == WithKey(init, key, v) + L;
      assert WithKey(ins + [last], key, v) == WithKey(init, key, v) + X + L;
      AppendOneOfTwo(WithKey(init, key, v), X, L);
    }
  }

  /** Appending two sequences commutes when one of them is empty. */
  lemma AppendOneOfTwo<T>(a: seq<T>, b: seq<T>, c: seq<T>)
    requires b == [] || c == []
    ensures a + b + c == a + c + b
  {
  }

  lemma {:induction false} InsertSum<T>(r: seq<T>, x: T, key: T -> int, f: T -> int)
    ensures SumBy(Insert(r, x, key), f) == SumBy(r, f) + f(x)
    decreases |r|
  {
    if r == [] || key(r[|r| - 1]) <= key(x) {
      assert (r + [x])[..|r|] == r;
    } else {
      var init, last := r[..|r| - 1], r[|r| - 1];
      var ins := Insert(init, x, key);
      InsertSum(init, x, key, f);
      assert (ins + [last])[..|ins|] == ins;
    }
  }

  /** Stable sort of `s` by `key`, ascending. */
  function SortBy<T>(s: seq<T>, key: T -> int): (r: seq<T>)
    ensures |r| == |s|
    ensures multiset(r) == multiset(s)
    ensures SortedBy(r, key)
  {
    if s == [] then []
    else
      var init, x := s[..|s| - 1], s[|s| - 1];
      SplitLast(s);
      var r0 := SortBy(init, key);
      InsertSorted(r0, x, key);
      Insert(r0, x, key)
  }

  /** The sort is stable: for every key value, the elements carrying it
      appear in the same order as in the input.  Together with sortedness
      and `multiset` equality this determines the result completely. */
  lemma {:induction false} SortStable<T>(s: seq<T>, key: T -> int, v: int)
    ensures WithKey(SortBy(s, key), key, v) == WithKey(s, key, v)
  {
    if s != [] {
      var init, x := s[..|s| - 1], s[|s| - 1];
      SortStable(init, key, v);
      InsertWithKey(SortBy(init, key), x, key, v);
    }
  }

  /** Sorting keeps exactly the elements it was given. */
  lemma SortMembers<T>(s: seq<T>, key: T -> int)
    ensures forall x :: x in SortBy(s, key) <==> x in s
  {
    var r := SortBy(s, key);
    forall x ensures x in r <==> x in s {
      assert x in r <==> x in multiset(r);
      assert x in s <==> x in multiset(s);
    }
  }

  /** Sorting does not change the sum of any per-element measure. */
  lemma {:induction false} SortPreservesSum<T>(s: seq<T>, key: T -> int, f: T -> int)
    ensures SumBy(SortBy(s, key), f) == SumBy(s, f)
  {
    if s != [] {
      var init, x := s[..|s| - 1], s[|s| - 1];
      SortPreservesSum(init, key, f);
      InsertSum(SortBy(init, key), x, key, f);
    }
  }

  lemma {:induction false} InsertDistinct<T, K>(r: seq<T>, x: T, key: T -> int, g: T -> K)
    requires DistinctBy(r, g)
    requires forall y :: y in r ==> g(y) != g(x)
    ensures DistinctBy(Insert(r, x, key), g)
    decreases |r|
  {
    if r == [] || key(r[|r| - 1]) <= key(x) {
    } else {
      var init, last := r[..|r| - 1], r[|r| - 1];
      assert DistinctBy(init, g);
      InsertDistinct(init, x, key, g);
      var ins := Insert(init, x, key);
      forall i | 0 <= i < |ins| ensures g(ins[i]) != g(last) {
        assert ins[i] in multiset(ins);
        if ins[i] != x {
          assert ins[i] in init;
          var j :| 0 <= j < |init| && init[j] == ins[i];
          assert r[j] == init[j];
        }
      }
    }
  }

  /** Sorting keeps elements apart that were apart under `g`. */
  lemma {:induction false} SortPreservesDistinct<T, K>(s: seq<T>, key: T -> int, g: T -> K)
    requires DistinctBy(s, g)
    ensures DistinctBy(SortBy(s, key), g)
  {
    if s != [] {
      var init, x := s[..|s| - 1], s[|s| - 1];
      assert DistinctBy(init, g);
      SortPreservesDistinct(init, key, g);
      var r0 := SortBy(init, key);
      forall y | y in r0 ensures g(y) != g(x) {
        assert y in multiset(r0);
        var j :| 0 <= j < |init| && init[j] == y;
        assert s[j] == y;
      }
      InsertDistinct(r0, x, key, g);
    }
  }

  /** Sorting an already sorted sequence leaves it as it is. */
  lemma {:induction false} SortSortedIsIdentity<T>(s: seq<T>, key: T -> int)
    requires SortedBy(s, key)
    ensures SortBy(s, key) == s
  {
    if s != [] {
      var init, x := s[..|s| - 1], s[|s| - 1];
      assert SortedBy(init, key) by {
        forall i, j | 0 <= i < j < |init| ensures key(init[i]) <= key(init[j]) {
          assert init[i] == s[i] && init[j] == s[j];
        }
      }
      SortSortedIsIdentity(init, key);
      assert SortBy(s, key) == Insert(init, x, key);
      if init != [] {
        assert init[|init| - 1] == s[|s| - 2];
      }
      assert Insert(init, x, key) == init + [x];
      SplitLast(s);
    }
  }

  /** `s` is strictly increasing by `f`. */
  ghost predicate IncreasingBy<T>(s: seq<T>, f: T -> int)
  {
    forall i, j :: 0 <= i < j < |s| ==> f(s[i]) < f(s[j])
  }

  /** Elements with equal `key` appear in strictly increasing `f` order. */
  ghost predicate TiesIncreasingBy<T>(s: seq<T>, key: T -> int, f: T -> int)
  {
    forall i, j :: 0 <= i < j < |s| && key(s[i]) == key(s[j]) ==> f(s[i]) < f(s[j])
  }

  /** Appending an element that comes after every equal-keyed element. */
  lemma SnocTies<T>(r: seq<T>, x: T, key: T -> int, f: T -> int)
    requires TiesIncreasingBy(r, key, f)
    requires forall i :: 0 <= i < |r| && key(r[i]) == key(x) ==> f(r[i]) < f(x)
    ensures TiesIncreasingBy(r + [x], key, f)
  {
    var r' := r + [x];
    forall i, j | 0 <= i < j < |r'| && key(r'[i]) == key(r'[j]) ensures f(r'[i]) < f(r'[j]) {
      assert r'[i] == r[i];
      if j < |r| {
        assert r'[j] == r[j];
      }
    }
  }

  lemma {:induction false} InsertTies<T>(r: seq<T>, x: T, key: T -> int, f: T -> int)
    requires TiesIncreasingBy(r, key, f)
    requires forall y :: y in r ==> f(y) < f(x)
    ensures TiesIncreasingBy(Insert(r, x, key), key, f)
    decreases |r|
  {
    if r == [] || key(r[|r| - 1]) <= key(x) {
      assert forall i :: 0 <= i < |r| ==> r[i] in r;
      SnocTies(r, x, key, f);
    } else {
      var init, last := r[..|r| - 1], r[|r| - 1];
      assert TiesIncreasingBy(init, key, f) by {
        forall i, j | 0 <= i < j < |init| && key(init[i]) == key(init[j])
          ensures f(init[i]) < f(init[j])
        {
          assert init[i] == r[i] && init[j] == r[j];
        }
      }
      assert forall y :: y in init ==> y in r;
      InsertTies(init, x, key, f);
      var ins := Insert(init, x, key);
      forall i | 0 <= i < |ins| && key(ins[i]) == key(last)
        ensures f(ins[i]) < f(last)
      {
        assert ins[i] in multiset(ins);
        if ins[i] != x {
          assert ins[i] in init;
          var k :| 0 <= k < |init| && init[k] == ins[i];
          assert r[k] == init[k];
        }
      }
      SnocTies(ins, last, key, f);
    }
  }

  /** Stability, stated pairwise: when the input is increasing by `f`,
      any two elements with equal keys keep that order after sorting. */
  lemma {:induction false} SortKeepsTieOrder<T>(s: seq<T>, key: T -> int, f: T -> int)
    requires IncreasingBy(s, f)
    ensures TiesIncreasingBy(SortBy(s, key), key, f)
  {
    if s != [] {
      var init, x := s[..|s| - 1], s[|s| - 1];
      assert IncreasingBy(init, f) by {
        forall i, j | 0 <= i < j < |init| ensures f(init[i]) < f(init[j]) {
          assert init[i] == s[i] && init[j] == s[j];
        }
      }
      SortKeepsTieOrder(init, key, f);
      var r0 := SortBy(init, key);
      forall y | y in r0 ensures f(y) < f(x) {
        assert y in multiset(r0);
        var k :| 0 <= k < |init| && init[k] == y;
        assert s[k] == y;
      }
      InsertTies(r0, x, key, f);
    }
  }

}
