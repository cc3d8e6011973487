/**
 * LINQ's `OrderBy(keySelector)` on string keys: a stable sort.  Keys are
 * compared in ordinal order (Text.LessEq).
 */
module Ordering {
  import opened Text

  /** Puts `x` in front of the first element whose key is not below its own. */
  function InsertBy<T>(x: T, s: seq<T>, key: T -> string): (r: seq<T>)
    ensures |r| == |s| + 1
  {
    if s == [] then [x]
    else if LessEq(key(x), key(s[0])) then [x] + s
    else [s[0]] + InsertBy(x, s[1..], key)
  }

  /** `s.OrderBy(key)`: a permutation of `s`, ascending by key. */
  function OrderBy<T>(s: seq<T>, key: T -> string): (r: seq<T>)
    ensures |r| == |s|
    ensures multiset(r) == multiset(s)
    ensures SortedBy(r, key)
  {
    if s == [] then []
    else
      var tail := OrderBy(s[1..], key);
      InsertByPermutes(s[0], tail, key);
      InsertBySorted(s[0], tail, key);
      assert s == [s[0]] + s[1..];
      InsertBy(s[0], tail, key)
  }

  ghost predicate SortedBy<T>(s: seq<T>, key: T -> string)
  {
    forall i, j :: 0 <= i < j < |s| ==> LessEq(key(s[i]), key(s[j]))
  }

  /** The elements of `s` whose key is `k`, in their order in `s`. */
  function WithKey<T>(s: seq<T>, key: T -> string, k: string): (r: seq<T>)
    ensures |r| <= |s|
  {
    if s == [] then []
    else (if key(s[0]) == k then [s[0]] else []) + WithKey(s[1..], key, k)
  }

  lemma {:induction false} InsertByPermutes<T>(x: T, s: seq<T>, key: T -> string)
    ensures multiset(InsertBy(x, s, key)) == multiset(s) + multiset{x}
  {
    if s != [] && !LessEq(key(x), key(s[0])) {
      InsertByPermutes(x, s[1..], key);
      assert s == [s[0]] + s[1..];
    }
  }

  lemma {:induction false} InsertBySorted<T>(x: T, s: seq<T>, key: T -> string)
    requires SortedBy(s, key)
    ensures SortedBy(InsertBy(x, s, key), key)
  {
    if s == [] {
    } else if LessEq(key(x), key(s[0])) {
      forall j | 0 < j < |s| + 1 ensures LessEq(key(x), key(([x] + s)[j])) {
        if j > 1 { LessEqTransitive(key(x), key(s[0]), key(s[j - 1])); }
      }
    } else {
      var tail := InsertBy(x, s[1..], key);
      InsertBySorted(x, s[1..], key);
      InsertByPermutes(x, s[1..], key);
      LessEqTotal(key(x), key(s[0]));
      forall j | 0 <= j < |tail| ensures LessEq(key(s[0]), key(tail[j])) {
        assert tail[j] in multiset(s[1..]) + multiset{x};
        if tail[j] != x {
          assert tail[j] in s[1..];
        }
      }
    }
  }

  lemma WithKeyCons<T>(y: T, t: seq<T>, key: T -> string, k: string)
    ensures WithKey([y] + t, key, k) == (if key(y) == k then [y] else []) + WithKey(t, key, k)
  {
    assert ([y] + t)[1..] == t;
  }

  lemma {:induction false} InsertByWithKey<T>(x: T, s: seq<T>, key: T -> string, k: string)
    ensures WithKey(InsertBy(x, s, key), key, k)
         == (if key(x) == k then [x] else []) + WithKey(s, key, k)
  {
    if s == [] {
      WithKeyCons(x, [], key, k);
    } else if LessEq(key(x), key(s[0])) {
      WithKeyCons(x, s, key, k);
    } else {
      var tail := InsertBy(x, s[1..], key);
      InsertByWithKey(x, s[1..], key, k);
      WithKeyCons(s[0], tail, key, k);
      if key(x) == k {
        LessEqRefl(k);
        assert key(s[0]) != k;
      }
      calc {
        WithKey(InsertBy(x, s, key), key, k);
        WithKey([s[0]] + tail, key, k);
        (if key(s[0]) == k then [s[0]] else []) + WithKey(tail, key, k);
        (if key(s[0]) == k then [s[0]] else [])
          + ((if key(x) == k then [x] else []) + WithKey(s[1..], key, k));
        (if key(x) == k then [x] else []) + WithKey(s, key, k);
      }
    }
  }

  lemma {:induction false} LessEqRefl(a: string)
    ensures LessEq(a, a)
  {
    if a != [] { LessEqRefl(a[1..]); }
  }

  /** `OrderBy` is stable: the elements sharing a key keep their relative order. */
  lemma {:induction false} OrderByStable<T>(s: seq<T>, key: T -> string, k: string)
    ensures WithKey(OrderBy(s, key), key, k) == WithKey(s, key, k)
  {
    if s != [] {
      OrderByStable(s[1..], key, k);
      InsertByWithKey(s[0], OrderBy(s[1..], key), key, k);
    }
  }

  /** Distinct keys come out strictly ascending. */
  lemma OrderByStrictlyAscending<T>(s: seq<T>, key: T -> string, i: nat, j: nat)
    requires i < j < |s|
    requires key(OrderBy(s, key)[i]) != key(OrderBy(s, key)[j])
    ensures LessEq(key(OrderBy(s, key)[i]), key(OrderBy(s, key)[j]))
    ensures !LessEq(key(OrderBy(s, key)[j]), key(OrderBy(s, key)[i]))
  {
    var r := OrderBy(s, key);
    if LessEq(key(r[j]), key(r[i])) {
      LessEqAntisymmetric(key(r[i]), key(r[j]));
    }
  }
}
