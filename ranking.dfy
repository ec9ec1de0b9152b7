/** The ordering half of `search_similar`: the threshold test on a similarity score and
    `results.sort(key=..., reverse=True)`.

    The cosine similarity itself is float arithmetic and is not modelled; a score is either a
    number or NaN (what numpy gives for a zero-length vector), and a NaN fails every `>=`. */
module Ranking {

  datatype Score = NaN | Num(value: real)

  /** `similarity >= min_similarity` on floats: false when either side is NaN. */
  predicate AtLeast(s: Score, min: Score) {
    s.Num? && min.Num? && s.value >= min.value
  }

  /** Non-increasing by `key`. */
  predicate SortedDesc<T>(s: seq<T>, key: T -> real) {
    forall i, j :: 0 <= i < j < |s| ==> key(s[i]) >= key(s[j])
  }

  /** `x` placed in front of the first element whose key is not larger than its own. */
  function Insert<T>(x: T, s: seq<T>, key: T -> real): (r: seq<T>)
    ensures |r| == |s| + 1
  {
    if s == [] || key(s[0]) <= key(x) then [x] + s else [s[0]] + Insert(x, s[1..], key)
  }

  /** `list.sort(key=key, reverse=True)`. Python's sort is stable even when reversed, so
      elements with equal keys keep their order; inserting each element, from the last to the
      first, in front of the elements with keys no larger than its own does the same. */
  function SortDesc<T>(s: seq<T>, key: T -> real): (r: seq<T>)
    ensures |r| == |s|
  {
    if s == [] then [] else Insert(s[0], SortDesc(s[1..], key), key)
  }

  /** The elements of `s` whose key is `k`, in order. */
  function WithKey<T>(s: seq<T>, key: T -> real, k: real): seq<T> {
    if s == [] then []
    else if key(s[0]) == k then [s[0]] + WithKey(s[1..], key, k)
    else WithKey(s[1..], key, k)
  }

  lemma {:induction false} InsertElements<T>(x: T, s: seq<T>, key: T -> real)
    ensures multiset(Insert(x, s, key)) == multiset(s) + multiset{x}
  {
    if s != [] && key(s[0]) > key(x) {
      InsertElements(x, s[1..], key);
      assert s == [s[0]] + s[1..];
    }
  }

  /** Inserting an element no larger than a bound into elements no larger than it keeps
      every key within the bound. */
  lemma {:induction false} InsertBounded<T>(x: T, s: seq<T>, key: T -> real, b: real)
    requires key(x) <= b && forall j :: 0 <= j < |s| ==> key(s[j]) <= b
    ensures forall j :: 0 <= j < |Insert(x, s, key)| ==> key(Insert(x, s, key)[j]) <= b
  {
    if s != [] && key(s[0]) > key(x) {
      InsertBounded(x, s[1..], key, b);
    }
  }

  lemma {:induction false} InsertSorted<T>(x: T, s: seq<T>, key: T -> real)
    requires SortedDesc(s, key)
    ensures SortedDesc(Insert(x, s, key), key)
  {
    if s != [] && key(s[0]) > key(x) {
      var tail := Insert(x, s[1..], key);
      InsertSorted(x, s[1..], key);
      forall j | 0 <= j < |s[1..]| ensures key(s[1..][j]) <= key(s[0]) {
        assert s[1..][j] == s[j + 1];
      }
      InsertBounded(x, s[1..], key, key(s[0]));
      var r := [s[0]] + tail;
      forall i, j | 0 <= i < j < |r| ensures key(r[i]) >= key(r[j]) {
        assert r[j] == tail[j - 1];
        if i > 0 { assert r[i] == tail[i - 1]; }
      }
    }
  }

  /** Inserting `x` puts it in front of every element with the same key. */
  lemma {:induction false} InsertWithKey<T>(x: T, s: seq<T>, key: T -> real, k: real)
    ensures WithKey(Insert(x, s, key), key, k) ==
            if key(x) == k then [x] + WithKey(s, key, k) else WithKey(s, key, k)
  {
    if s != [] && key(s[0]) > key(x) {
      InsertWithKey(x, s[1..], key, k);
    }
  }

  /** The result of the sort is in non-increasing order. */
  lemma {:induction false} SortDescSorted<T>(s: seq<T>, key: T -> real)
    ensures SortedDesc(SortDesc(s, key), key)
  {
    if s != [] {
      SortDescSorted(s[1..], key);
      InsertSorted(s[0], SortDesc(s[1..], key), key);
    }
  }

  /** The sort only reorders. */
  lemma {:induction false} SortDescPermutation<T>(s: seq<T>, key: T -> real)
    ensures multiset(SortDesc(s, key)) == multiset(s)
  {
    if s != [] {
      SortDescPermutation(s[1..], key);
      InsertElements(s[0], SortDesc(s[1..], key), key);
      assert s == [s[0]] + s[1..];
    }
  }

  /** The sort is stable: the elements with any one key come out in the order they went in. */
  lemma {:induction false} SortDescStable<T>(s: seq<T>, key: T -> real, k: real)
    ensures WithKey(SortDesc(s, key), key, k) == WithKey(s, key, k)
  {
    if s != [] {
      SortDescStable(s[1..], key, k);
      InsertWithKey(s[0], SortDesc(s[1..], key), key, k);
    }
  }

  /** `rank` strictly increases along `s`: for rows, their position in a table scan. */
  predicate Increasing<T>(s: seq<T>, rank: T -> int) {
    forall i, j :: 0 <= i < j < |s| ==> rank(s[i]) < rank(s[j])
  }

  /** `rank` strictly increases along every run of elements with equal keys. */
  predicate TiesIncreasing<T>(s: seq<T>, key: T -> real, rank: T -> int) {
    forall i, j :: 0 <= i < j < |s| && key(s[i]) == key(s[j]) ==> rank(s[i]) < rank(s[j])
  }

  lemma {:induction false} WithKeyHas<T>(s: seq<T>, key: T -> real, k: real, x: T)
    requires x in s && key(x) == k
    ensures x in WithKey(s, key, k)
  {
    if s[0] != x {
      assert s == [s[0]] + s[1..];
      WithKeyHas(s[1..], key, k, x);
    }
  }

  /** Picking out the elements with one key keeps their order. */
  lemma {:induction false} WithKeyIncreasing<T>(s: seq<T>, key: T -> real, k: real, rank: T -> int)
    requires Increasing(s, rank)
    ensures Increasing(WithKey(s, key, k), rank)
    ensures forall x :: x in WithKey(s, key, k) ==> x in s
  {
    if s != [] {
      var w := WithKey(s[1..], key, k);
      WithKeyIncreasing(s[1..], key, k, rank);
      if key(s[0]) == k {
        forall j | 0 <= j < |w| ensures rank(s[0]) < rank(w[j]) {
          assert w[j] in w;
          var m :| 0 <= m < |s[1..]| && s[1..][m] == w[j];
          assert s[m + 1] == w[j];
        }
        var r := [s[0]] + w;
        forall i, j | 0 <= i < j < |r| ensures rank(r[i]) < rank(r[j]) {
          assert r[j] == w[j - 1];
          if i > 0 { assert r[i] == w[i - 1]; }
        }
      }
    }
  }

  /** Two elements with the same key come in the order that `WithKey` lists them. */
  lemma {:induction false} TiesFromWithKey<T>(s: seq<T>, key: T -> real, rank: T -> int, i: nat, j: nat)
    requires i < j < |s| && key(s[i]) == key(s[j])
    requires Increasing(WithKey(s, key, key(s[i])), rank)
    ensures rank(s[i]) < rank(s[j])
  {
    var k := key(s[i]);
    var w := WithKey(s[1..], key, k);
    assert s[1..][j - 1] == s[j];
    if i == 0 {
      WithKeyHas(s[1..], key, k, s[j]);
      var q :| 0 <= q < |w| && w[q] == s[j];
      assert WithKey(s, key, k) == [s[0]] + w;
      var all := WithKey(s, key, k);
      assert all[0] == s[0] && all[q + 1] == s[j];
      assert rank(all[0]) < rank(all[q + 1]);
    } else {
      assert Increasing(w, rank) by {
        if key(s[0]) == k {
          assert WithKey(s, key, k) == [s[0]] + w;
          forall a, b | 0 <= a < b < |w| ensures rank(w[a]) < rank(w[b]) {
            assert w[a] == WithKey(s, key, k)[a + 1] && w[b] == WithKey(s, key, k)[b + 1];
          }
        }
      }
      assert s[1..][i - 1] == s[i];
      TiesFromWithKey(s[1..], key, rank, i - 1, j - 1);
    }
  }

  /** Ties keep their order through the sort: if `rank` increases along the input, it increases
      along every run of equal keys in the output. */
  lemma SortDescTies<T>(s: seq<T>, key: T -> real, rank: T -> int)
    requires Increasing(s, rank)
    ensures TiesIncreasing(SortDesc(s, key), key, rank)
  {
    var r := SortDesc(s, key);
    forall i, j | 0 <= i < j < |r| && key(r[i]) == key(r[j]) ensures rank(r[i]) < rank(r[j]) {
      SortDescStable(s, key, key(r[i]));
      WithKeyIncreasing(s, key, key(r[i]), rank);
      TiesFromWithKey(r, key, rank, i, j);
    }
  }

  /** In a sorted sequence everything before a cut is at least everything after it. */
  lemma SortedCut<T>(s: seq<T>, key: T -> real, m: nat)
    requires SortedDesc(s, key) && m <= |s|
    ensures forall x, y :: x in s[..m] && y in s[m..] ==> key(x) >= key(y)
  {
    forall x, y | x in s[..m] && y in s[m..] ensures key(x) >= key(y) {
      var a :| 0 <= a < m && s[..m][a] == x;
      var b :| 0 <= b < |s| - m && s[m..][b] == y;
      assert s[a] == x && s[m + b] == y;
    }
  }
}
