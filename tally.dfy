/**
 * A Python dict used as a counter (`d[k] = d.get(k, 0) + 1`): a list of (key, count)
 * pairs in first-insertion order, which is the order Python dicts iterate in.
 */
module Tally {

  /** Counts one more `k`: in place if the key is present, as a new last entry otherwise. */
  function Bump<K(==)>(c: seq<(K, nat)>, k: K): seq<(K, nat)> {
    if c == [] then [(k, 1)]
    else if c[0].0 == k then [(k, c[0].1 + 1)] + c[1..]
    else [c[0]] + Bump(c[1..], k)
  }

  /** The counter after counting every element of `ks` from left to right. */
  function TallyOf<K(==)>(ks: seq<K>): seq<(K, nat)> {
    if ks == [] then [] else Bump(TallyOf(ks[..|ks| - 1]), ks[|ks| - 1])
  }

  function KeysOf<K>(c: seq<(K, nat)>): seq<K> {
    if c == [] then [] else [c[0].0] + KeysOf(c[1..])
  }

  /** The sum of all counts. */
  function Total<K>(c: seq<(K, nat)>): nat {
    if c == [] then 0 else c[0].1 + Total(c[1..])
  }

  /** `d.get(k, 0)`. */
  function Lookup<K(==)>(c: seq<(K, nat)>, k: K): nat {
    if c == [] then 0 else if c[0].0 == k then c[0].1 else Lookup(c[1..], k)
  }

  ghost predicate DistinctKeys<K>(c: seq<(K, nat)>) {
    forall i, j :: 0 <= i < j < |c| ==> c[i].0 != c[j].0
  }

  lemma {:induction false} KeysOfIndex<K>(c: seq<(K, nat)>)
    ensures |KeysOf(c)| == |c|
    ensures forall i :: 0 <= i < |c| ==> KeysOf(c)[i] == c[i].0
  {
    if c != [] {
      KeysOfIndex(c[1..]);
    }
  }

  lemma {:induction false} BumpTotal<K>(c: seq<(K, nat)>, k: K)
    ensures Total(Bump(c, k)) == Total(c) + 1
  {
    if c != [] && c[0].0 != k {
      BumpTotal(c[1..], k);
      assert ([c[0]] + Bump(c[1..], k))[1..] == Bump(c[1..], k);
    } else if c != [] {
      assert ([(k, c[0].1 + 1)] + c[1..])[1..] == c[1..];
    }
  }

  lemma {:induction false} BumpKeys<K>(c: seq<(K, nat)>, k: K)
    ensures KeysOf(Bump(c, k)) == if k in KeysOf(c) then KeysOf(c) else KeysOf(c) + [k]
  {
    if c != [] && c[0].0 != k {
      BumpKeys(c[1..], k);
      assert ([c[0]] + Bump(c[1..], k))[1..] == Bump(c[1..], k);
      assert KeysOf(c) == [c[0].0] + KeysOf(c[1..]);
    } else if c != [] {
      assert ([(k, c[0].1 + 1)] + c[1..])[1..] == c[1..];
    }
  }

  lemma {:induction false} BumpLookup<K>(c: seq<(K, nat)>, k: K, q: K)
    requires DistinctKeys(c)
    ensures Lookup(Bump(c, k), q) == Lookup(c, q) + (if q == k then 1 else 0)
  {
    if c != [] && c[0].0 != k {
      BumpLookup(c[1..], k, q);
      assert ([c[0]] + Bump(c[1..], k))[1..] == Bump(c[1..], k);
    } else if c != [] {
      assert ([(k, c[0].1 + 1)] + c[1..])[1..] == c[1..];
      if q == k {
        LookupAbsent(c[1..], k);
      }
    }
  }

  lemma {:induction false} LookupAbsent<K>(c: seq<(K, nat)>, k: K)
    requires forall i :: 0 <= i < |c| ==> c[i].0 != k
    ensures Lookup(c, k) == 0
  {
    if c != [] {
      LookupAbsent(c[1..], k);
    }
  }

  /** With distinct keys, the count looked up for an entry's key is that entry's count. */
  lemma {:induction false} LookupAt<K>(c: seq<(K, nat)>, j: nat)
    requires DistinctKeys(c) && j < |c|
    ensures Lookup(c, c[j].0) == c[j].1
  {
    if j > 0 {
      assert c[0].0 != c[j].0;
      assert DistinctKeys(c[1..]) by {
        forall a, b | 0 <= a < b < |c| - 1 ensures c[1..][a].0 != c[1..][b].0 {
          assert c[1..][a] == c[a + 1] && c[1..][b] == c[b + 1];
        }
      }
      LookupAt(c[1..], j - 1);
    }
  }

  lemma BumpDistinct<K>(c: seq<(K, nat)>, k: K)
    requires DistinctKeys(c)
    ensures DistinctKeys(Bump(c, k))
  {
    BumpKeys(c, k);
    KeysOfIndex(c);
    KeysOfIndex(Bump(c, k));
  }

  /** Counting `ks` counts every element once: the counts add up to `|ks|`. */
  lemma {:induction false} TallyTotal<K>(ks: seq<K>)
    ensures Total(TallyOf(ks)) == |ks|
  {
    if ks != [] {
      TallyTotal(ks[..|ks| - 1]);
      BumpTotal(TallyOf(ks[..|ks| - 1]), ks[|ks| - 1]);
    }
  }

  /** Each key appears once, and its count is the number of times it occurs in `ks`. */
  lemma {:induction false} TallyCounts<K>(ks: seq<K>, q: K)
    ensures DistinctKeys(TallyOf(ks))
    ensures Lookup(TallyOf(ks), q) == multiset(ks)[q]
  {
    if ks != [] {
      var init, last := ks[..|ks| - 1], ks[|ks| - 1];
      TallyCounts(init, q);
      BumpDistinct(TallyOf(init), last);
      BumpLookup(TallyOf(init), last, q);
      assert ks == init + [last];
    }
  }

  /** The keys are the distinct elements of `ks` in order of first occurrence. */
  lemma {:induction false} TallyKeys<K>(ks: seq<K>)
    ensures forall q :: q in KeysOf(TallyOf(ks)) <==> q in ks
  {
    if ks != [] {
      var init, last := ks[..|ks| - 1], ks[|ks| - 1];
      TallyKeys(init);
      BumpKeys(TallyOf(init), last);
      assert ks == init + [last];
    }
  }

  /** Counting a non-decreasing list of integers yields its distinct values in ascending order. */
  lemma {:induction false} TallyKeysAscending(ks: seq<int>)
    requires forall i, j :: 0 <= i < j < |ks| ==> ks[i] <= ks[j]
    ensures forall i, j :: 0 <= i < j < |TallyOf(ks)| ==> TallyOf(ks)[i].0 < TallyOf(ks)[j].0
  {
    if ks != [] {
      var init, last := ks[..|ks| - 1], ks[|ks| - 1];
      var c := TallyOf(init);
      TallyKeysAscending(init);
      TallyKeys(init);
      BumpKeys(c, last);
      KeysOfIndex(c);
      KeysOfIndex(Bump(c, last));
      forall i | 0 <= i < |c| ensures c[i].0 <= last {
        assert c[i].0 in KeysOf(c);
      }
    }
  }

  /** Index `i` holds the entry Python's `max(d.items(), key=count)` returns: the first maximal count. */
  ghost predicate IsFirstMax<K>(c: seq<(K, nat)>, i: nat) {
    && i < |c|
    && (forall j :: 0 <= j < |c| ==> c[j].1 <= c[i].1)
    && (forall j :: 0 <= j < i ==> c[j].1 < c[i].1)
  }
}
