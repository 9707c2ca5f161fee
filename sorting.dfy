/**
 * Stable insertion sort by an integer-sequence key compared lexicographically.
 * Every ORDER BY of the store and Python's `sorted(..., key=...)` in the timeline are modelled
 * with it: a key is a column list such as [turn, timestamp], [-initiative] or a name's code points.
 */
module Sorting {

  /** Lexicographic order; a proper prefix sorts first, as SQLite's BINARY collation orders text. */
  predicate LexLe(a: seq<int>, b: seq<int>)
    decreases |a|
  {
    if a == [] then true
    else if b == [] then false
    else if a[0] != b[0] then a[0] < b[0]
    else LexLe(a[1..], b[1..])
  }

  lemma {:induction false} LexLeTotal(a: seq<int>, b: seq<int>)
    ensures LexLe(a, b) || LexLe(b, a)
    decreases |a|
  {
    if a != [] && b != [] && a[0] == b[0] {
      LexLeTotal(a[1..], b[1..]);
    }
  }

  lemma {:induction false} LexLeTrans(a: seq<int>, b: seq<int>, c: seq<int>)
    requires LexLe(a, b) && LexLe(b, c)
    ensures LexLe(a, c)
    decreases |a|
  {
    if a != [] && b != [] && c != [] && a[0] == b[0] && b[0] == c[0] {
      LexLeTrans(a[1..], b[1..], c[1..]);
    }
  }

  lemma {:induction false} LexLeRefl(a: seq<int>)
    ensures LexLe(a, a)
    decreases |a|
  {
    if a != [] {
      LexLeRefl(a[1..]);
    }
  }

  ghost predicate SortedBy<T>(s: seq<T>, key: T -> seq<int>) {
    forall i, j :: 0 <= i < j < |s| ==> LexLe(key(s[i]), key(s[j]))
  }

  /** Puts `x` after every element whose key is not greater than its own. */
  function Insert<T>(x: T, s: seq<T>, key: T -> seq<int>): (r: seq<T>)
    ensures multiset(r) == multiset(s) + multiset{x}
  {
    if s == [] then [x]
    else if !LexLe(key(s[0]), key(x)) then [x] + s
    else
      assert s == [s[0]] + s[1..];
      [s[0]] + Insert(x, s[1..], key)
  }

  /** Sorting inserts the elements in input order, so equal keys keep their input order. */
  function SortBy<T>(s: seq<T>, key: T -> seq<int>): (r: seq<T>)
    ensures multiset(r) == multiset(s)
  {
    if s == [] then []
    else
      assert s == s[..|s| - 1] + [s[|s| - 1]];
      Insert(s[|s| - 1], SortBy(s[..|s| - 1], key), key)
  }

  /** The elements whose key is exactly `k`, in their order. */
  function WithKey<T>(s: seq<T>, key: T -> seq<int>, k: seq<int>): seq<T> {
    if s == [] then []
    else (if key(s[0]) == k then [s[0]] else []) + WithKey(s[1..], key, k)
  }

  lemma {:induction false} InsertSorted<T>(x: T, s: seq<T>, key: T -> seq<int>)
    requires SortedBy(s, key)
    ensures SortedBy(Insert(x, s, key), key)
  {
    if s == [] {
    } else if !LexLe(key(s[0]), key(x)) {
      LexLeTotal(key(s[0]), key(x));
      forall j | 0 < j < |s| ensures LexLe(key(x), key(s[j])) {
        LexLeTrans(key(x), key(s[0]), key(s[j]));
      }
    } else {
      InsertSorted(x, s[1..], key);
      var r := Insert(x, s, key);
      assert r == [s[0]] + Insert(x, s[1..], key);
      forall j | 0 < j < |r| ensures LexLe(key(s[0]), key(r[j])) {
        var y := r[j];
        assert y in multiset(Insert(x, s[1..], key));
        assert y == x || y in s[1..];
      }
    }
  }

  /** What SortBy returns is sorted. */
  lemma {:induction false} SortBySorted<T>(s: seq<T>, key: T -> seq<int>)
    ensures SortedBy(SortBy(s, key), key)
  {
    if s != [] {
      SortBySorted(s[..|s| - 1], key);
      InsertSorted(s[|s| - 1], SortBy(s[..|s| - 1], key), key);
    }
  }

  lemma {:induction false} WithKeyAppend<T>(s: seq<T>, x: T, key: T -> seq<int>, k: seq<int>)
    ensures WithKey(s + [x], key, k) == WithKey(s, key, k) + (if key(x) == k then [x] else [])
  {
    if s != [] {
      assert (s + [x])[1..] == s[1..] + [x];
      WithKeyAppend(s[1..], x, key, k);
    }
  }

  lemma {:induction false} WithKeyNone<T>(s: seq<T>, key: T -> seq<int>, k: seq<int>)
    requires forall i :: 0 <= i < |s| ==> key(s[i]) != k
    ensures WithKey(s, key, k) == []
  {
    if s != [] {
      WithKeyNone(s[1..], key, k);
    }
  }

  lemma {:induction false} InsertWithKey<T>(x: T, s: seq<T>, key: T -> seq<int>, k: seq<int>)
    requires SortedBy(s, key)
    decreases |s|, 1
    ensures WithKey(Insert(x, s, key), key, k) == WithKey(s, key, k) + (if key(x) == k then [x] else [])
  {
    if s == [] {
      WithKeyCons(x, [], key, k);
      assert [x] + [] == [x];
    } else if !LexLe(key(s[0]), key(x)) {
      InsertWithKeyFront(x, s, key, k);
    } else {
      InsertWithKeyLater(x, s, key, k);
    }
  }

  lemma {:induction false} InsertWithKeyLater<T>(x: T, s: seq<T>, key: T -> seq<int>, k: seq<int>)
    requires SortedBy(s, key) && s != [] && LexLe(key(s[0]), key(x))
    ensures WithKey(Insert(x, s, key), key, k) == WithKey(s, key, k) + (if key(x) == k then [x] else [])
    decreases |s|, 0
  {
    SortedTail(s, key);
    InsertWithKey(x, s[1..], key, k);
    InsertWithKeyStep(x, s, key, k);
  }

  /** The step behind a later insertion: the head stays in front of whatever the tail's insertion yields. */
  lemma InsertWithKeyStep<T>(x: T, s: seq<T>, key: T -> seq<int>, k: seq<int>)
    requires s != [] && LexLe(key(s[0]), key(x))
    requires WithKey(Insert(x, s[1..], key), key, k) == WithKey(s[1..], key, k) + (if key(x) == k then [x] else [])
    ensures WithKey(Insert(x, s, key), key, k) == WithKey(s, key, k) + (if key(x) == k then [x] else [])
  {
    var y, t := s[0], s[1..];
    var r := Insert(x, t, key);
    assert Insert(x, s, key) == [y] + r;
    WithKeyCons(y, r, key, k);
    WithKeyCons(y, t, key, k);
    SplitFirst(s);
    ConcatThree(if key(y) == k then [y] else [], WithKey(t, key, k), if key(x) == k then [x] else []);
  }

  lemma ConcatThree<T>(a: seq<T>, b: seq<T>, c: seq<T>)
    ensures a + (b + c) == (a + b) + c
  {
  }

  lemma InsertWithKeyFront<T>(x: T, s: seq<T>, key: T -> seq<int>, k: seq<int>)
    requires SortedBy(s, key) && s != [] && !LexLe(key(s[0]), key(x))
    ensures WithKey(Insert(x, s, key), key, k) == WithKey(s, key, k) + (if key(x) == k then [x] else [])
  {
    assert Insert(x, s, key) == [x] + s;
    WithKeyCons(x, s, key, k);
    if key(x) == k {
      NoneAfterGreater(x, s, key);
      WithKeyNone(s, key, k);
    }
  }

  lemma WithKeyCons<T>(y: T, t: seq<T>, key: T -> seq<int>, k: seq<int>)
    ensures WithKey([y] + t, key, k) == (if key(y) == k then [y] else []) + WithKey(t, key, k)
  {
    assert ([y] + t)[1..] == t;
  }

  lemma SortedTail<T>(s: seq<T>, key: T -> seq<int>)
    requires SortedBy(s, key) && s != []
    ensures SortedBy(s[1..], key)
  {
    forall i, j | 0 <= i < j < |s| - 1 ensures LexLe(key(s[1..][i]), key(s[1..][j])) {
      assert s[1..][i] == s[i + 1] && s[1..][j] == s[j + 1];
    }
  }

  lemma NoneAfterGreater<T>(x: T, s: seq<T>, key: T -> seq<int>)
    requires SortedBy(s, key) && s != [] && !LexLe(key(s[0]), key(x))
    ensures forall i :: 0 <= i < |s| ==> key(s[i]) != key(x)
  {
    LexLeRefl(key(s[0]));
    forall i | 0 < i < |s| ensures LexLe(key(s[0]), key(s[i])) {
    }
  }

  /** Stability: for every key, the elements carrying it come out in their input order. */
  lemma {:induction false} SortByStable<T>(s: seq<T>, key: T -> seq<int>, k: seq<int>)
    ensures WithKey(SortBy(s, key), key, k) == WithKey(s, key, k)
  {
    if s != [] {
      var init, last := s[..|s| - 1], s[|s| - 1];
      SortByStable(init, key, k);
      InsertIntoSorted(last, init, key, k);
      SortByStableStep(s, key, k);
    }
  }

  lemma InsertIntoSorted<T>(x: T, s: seq<T>, key: T -> seq<int>, k: seq<int>)
    ensures WithKey(Insert(x, SortBy(s, key), key), key, k) == WithKey(SortBy(s, key), key, k) + (if key(x) == k then [x] else [])
  {
    SortBySorted(s, key);
    InsertWithKey(x, SortBy(s, key), key, k);
  }

  lemma SortByStableStep<T>(s: seq<T>, key: T -> seq<int>, k: seq<int>)
    requires s != []
    requires WithKey(SortBy(s[..|s| - 1], key), key, k) == WithKey(s[..|s| - 1], key, k)
    requires WithKey(Insert(s[|s| - 1], SortBy(s[..|s| - 1], key), key), key, k)
      == WithKey(SortBy(s[..|s| - 1], key), key, k) + (if key(s[|s| - 1]) == k then [s[|s| - 1]] else [])
    ensures WithKey(SortBy(s, key), key, k) == WithKey(s, key, k)
  {
    var init, last := s[..|s| - 1], s[|s| - 1];
    assert SortBy(s, key) == Insert(last, SortBy(init, key), key);
    WithKeyLast(s, key, k);
  }

  lemma WithKeyLast<T>(s: seq<T>, key: T -> seq<int>, k: seq<int>)
    requires s != []
    ensures WithKey(s, key, k) == WithKey(s[..|s| - 1], key, k) + (if key(s[|s| - 1]) == k then [s[|s| - 1]] else [])
  {
    WithKeyAppend(s[..|s| - 1], s[|s| - 1], key, k);
    SplitLast(s);
  }

  lemma SplitFirst<T>(s: seq<T>)
    requires s != []
    ensures s == [s[0]] + s[1..]
  {
  }

  lemma SplitLast<T>(s: seq<T>)
    requires s != []
    ensures s == s[..|s| - 1] + [s[|s| - 1]]
  {
  }

  /** Sorting a sorted sequence changes nothing: sorting twice is sorting once. */
  lemma {:induction false} SortBySortedIdentity<T>(s: seq<T>, key: T -> seq<int>)
    requires SortedBy(s, key)
    ensures SortBy(s, key) == s
  {
    if s != [] {
      var init, last := s[..|s| - 1], s[|s| - 1];
      assert SortedBy(init, key);
      SortBySortedIdentity(init, key);
      InsertAtEnd(last, init, key);
      assert s == init + [last];
    }
  }

  lemma {:induction false} InsertAtEnd<T>(x: T, s: seq<T>, key: T -> seq<int>)
    requires forall i :: 0 <= i < |s| ==> LexLe(key(s[i]), key(x))
    ensures Insert(x, s, key) == s + [x]
  {
    if s != [] {
      InsertAtEnd(x, s[1..], key);
      assert [s[0]] + (s[1..] + [x]) == s + [x];
    }
  }
}
