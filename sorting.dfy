/** Python's `sorted(xs, key=...)` / `list.sort()`: a stable sort by an integer key. */
module Sorting {

  predicate SortedBy<T>(s: seq<T>, key: T -> int)
  {
    forall i, j :: 0 <= i < j < |s| ==> key(s[i]) <= key(s[j])
  }

  /** The elements of `s` whose key is `k`, in their order in `s`. */
  function WithKey<T>(s: seq<T>, key: T -> int, k: int): (r: seq<T>)
    ensures |r| <= |s|
  {
    if s == [] then [] else (if key(s[0]) == k then [s[0]] else []) + WithKey(s[1..], key, k)
  }

  /** Insert `x` in front of the first element whose key is not smaller than its own. */
  function Insert<T>(x: T, s: seq<T>, key: T -> int): (r: seq<T>)
    ensures multiset(r) == multiset(s) + multiset{x}
    ensures |r| == |s| + 1
  {
    if s == [] || key(x) <= key(s[0]) then [x] + s
    else
      assert multiset(s) == multiset{s[0]} + multiset(s[1..]) by {
        assert s == [s[0]] + s[1..];
      }
      [s[0]] + Insert(x, s[1..], key)
  }

  /** Stable sort: insertion from the back, each element before every element that does not precede it by key. */
  function SortBy<T>(s: seq<T>, key: T -> int): (r: seq<T>)
    ensures multiset(r) == multiset(s)
    ensures |r| == |s|
  {
    if s == [] then []
    else
      assert multiset(s) == multiset{s[0]} + multiset(s[1..]) by {
        assert s == [s[0]] + s[1..];
      }
      Insert(s[0], SortBy(s[1..], key), key)
  }

  lemma {:induction false} InsertSorted<T>(x: T, s: seq<T>, key: T -> int)
    requires SortedBy(s, key)
    ensures SortedBy(Insert(x, s, key), key)
  {
    if s == [] || key(x) <= key(s[0]) {
      var r := [x] + s;
      forall i, j | 0 <= i < j < |r| ensures key(r[i]) <= key(r[j]) {
        if i > 0 {
          assert r[i] == s[i - 1] && r[j] == s[j - 1];
        } else {
          assert r[j] == s[j - 1];
        }
      }
    } else {
      SortedTail(s, key);
      InsertSorted(x, s[1..], key);
      var r := Insert(x, s[1..], key);
      forall i | 0 <= i < |s[1..]| ensures key(s[0]) <= key(s[1..][i]) {
        assert s[1..][i] == s[i + 1];
      }
      InsertLowerBound(x, s[1..], key, key(s[0]));
      var t := [s[0]] + r;
      assert Insert(x, s, key) == t;
      forall i, j | 0 <= i < j < |t| ensures key(t[i]) <= key(t[j]) {
        assert t[j] == r[j - 1];
        if i > 0 {
          assert t[i] == r[i - 1];
        }
      }
    }
  }

  /** A bound below the new element and every old one is below every element after the insertion. */
  lemma {:induction false} InsertLowerBound<T>(x: T, s: seq<T>, key: T -> int, b: int)
    requires b <= key(x) && forall i :: 0 <= i < |s| ==> b <= key(s[i])
    ensures forall i :: 0 <= i < |Insert(x, s, key)| ==> b <= key(Insert(x, s, key)[i])
  {
    if s == [] || key(x) <= key(s[0]) {
      var r := [x] + s;
      forall i | 0 <= i < |r| ensures b <= key(r[i]) {
        if i > 0 {
          assert r[i] == s[i - 1];
        }
      }
    } else {
      forall i | 0 <= i < |s[1..]| ensures b <= key(s[1..][i]) {
        assert s[1..][i] == s[i + 1];
      }
      InsertLowerBound(x, s[1..], key, b);
      var r := Insert(x, s[1..], key);
      var t := [s[0]] + r;
      forall i | 0 <= i < |t| ensures b <= key(t[i]) {
        if i > 0 {
          assert t[i] == r[i - 1];
        }
      }
    }
  }

  /** The result is ordered by key. */
  lemma {:induction false} SortBySorted<T>(s: seq<T>, key: T -> int)
    ensures SortedBy(SortBy(s, key), key)
  {
    if s != [] {
      SortBySorted(s[1..], key);
      InsertSorted(s[0], SortBy(s[1..], key), key);
    }
  }

  /** Inserting `x` adds it to the elements of its own key, in front of them. */
  lemma {:induction false} WithKeyInsert<T>(x: T, s: seq<T>, key: T -> int, k: int)
    ensures WithKey(Insert(x, s, key), key, k) == (if key(x) == k then [x] else []) + WithKey(s, key, k)
    decreases |s|, 1
  {
    if s == [] || key(x) <= key(s[0]) {
      WithKeyCons(x, s, key, k);
    } else {
      WithKeyInsertLater(x, s, key, k);
    }
  }

  /** The case of `WithKeyInsert` where `x` goes behind the first element, whose key is then not `x`'s. */
  lemma {:induction false} WithKeyInsertLater<T>(x: T, s: seq<T>, key: T -> int, k: int)
    requires s != [] && key(x) > key(s[0])
    ensures WithKey(Insert(x, s, key), key, k) == (if key(x) == k then [x] else []) + WithKey(s, key, k)
    decreases |s|, 0
  {
    var r := Insert(x, s[1..], key);
    assert Insert(x, s, key) == [s[0]] + r;
    WithKeyInsert(x, s[1..], key, k);
    WithKeyCons(s[0], r, key, k);
    var rest := WithKey(s[1..], key, k);
    if key(x) == k {
      assert WithKey(r, key, k) == [x] + rest;
      assert WithKey(s, key, k) == rest;
    } else {
      assert WithKey(r, key, k) == rest;
    }
  }

  /** `WithKey` of a sequence with a first element. */
  lemma {:induction false} WithKeyCons<T>(x: T, s: seq<T>, key: T -> int, k: int)
    ensures WithKey([x] + s, key, k) == (if key(x) == k then [x] else []) + WithKey(s, key, k)
  {
    assert ([x] + s)[0] == x && ([x] + s)[1..] == s;
  }

  lemma {:induction false} SortedTail<T>(s: seq<T>, key: T -> int)
    requires s != [] && SortedBy(s, key)
    ensures SortedBy(s[1..], key)
  {
    forall i, j | 0 <= i < j < |s[1..]| ensures key(s[1..][i]) <= key(s[1..][j]) {
      assert s[1..][i] == s[i + 1] && s[1..][j] == s[j + 1];
    }
  }

  /** Stability: for every key, the elements carrying it keep their relative order. */
  lemma {:induction false} SortByStable<T>(s: seq<T>, key: T -> int, k: int)
    ensures WithKey(SortBy(s, key), key, k) == WithKey(s, key, k)
  {
    if s != [] {
      SortByStable(s[1..], key, k);
      WithKeyInsert(s[0], SortBy(s[1..], key), key, k);
    }
  }

  /** Sorting by key leaves a sequence that is already ordered untouched. */
  lemma {:induction false} SortBySortedIdentity<T>(s: seq<T>, key: T -> int)
    requires SortedBy(s, key)
    ensures SortBy(s, key) == s
  {
    if s != [] {
      assert SortedBy(s[1..], key);
      SortBySortedIdentity(s[1..], key);
    }
  }
}
