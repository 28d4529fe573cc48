/** Python dictionaries as ordered association lists.
    A Python `dict` remembers the order in which its keys were first inserted, and
    the dashboard rows of this system are written in that order; so a dictionary is
    modelled as a sequence of (key, value) pairs with pairwise distinct keys.
    Assigning to an existing key replaces its value in place; assigning to a new
    key appends it at the end. */
module Dicts {

  type Dict<K, V> = seq<(K, V)>

  /** The keys, in insertion order (`list(d.keys())`). */
  function Keys<K, V>(d: Dict<K, V>): (ks: seq<K>)
    ensures |ks| == |d|
    ensures forall i :: 0 <= i < |d| ==> ks[i] == d[i].0
  {
    seq(|d|, i requires 0 <= i < |d| => d[i].0)
  }

  /** The representation invariant of every dictionary: no key twice. */
  predicate UniqueKeys<K(==,!new), V>(d: Dict<K, V>) {
    forall i, j :: 0 <= i < j < |d| ==> d[i].0 != d[j].0
  }

  lemma KeysAppend<K, V>(d: Dict<K, V>, k: K, v: V)
    ensures Keys(d + [(k, v)]) == Keys(d) + [k]
  {
  }

  lemma KeysPrefix<K, V>(d: Dict<K, V>, n: nat)
    requires n <= |d|
    ensures Keys(d[..n]) == Keys(d)[..n]
  {
  }

  /** Position of a present key. */
  function IndexOf<K(==,!new), V>(d: Dict<K, V>, k: K): (i: nat)
    requires k in Keys(d)
    ensures i < |d| && d[i].0 == k
    ensures forall j :: 0 <= j < i ==> d[j].0 != k
  {
    if d[0].0 == k then 0
    else
      assert Keys(d) == [d[0].0] + Keys(d[1..]);
      1 + IndexOf(d[1..], k)
  }

  /** `d[k]` for a present key. */
  function Get<K(==,!new), V>(d: Dict<K, V>, k: K): V
    requires k in Keys(d)
  {
    d[IndexOf(d, k)].1
  }

  /** `d.get(k, default)`. */
  function GetOr<K(==,!new), V>(d: Dict<K, V>, k: K, default: V): V {
    if k in Keys(d) then Get(d, k) else default
  }

  /** In a dictionary with distinct keys, the value stored at position i is what
      a lookup of the key at position i returns. */
  lemma GetAt<K(!new), V>(d: Dict<K, V>, i: nat)
    requires UniqueKeys(d) && i < |d|
    ensures d[i].0 in Keys(d) && Get(d, d[i].0) == d[i].1
  {
  }

  /** `d[k] = v`: replace in place when k is present, append otherwise. */
  function Put<K(==,!new), V>(d: Dict<K, V>, k: K, v: V): (r: Dict<K, V>)
    requires UniqueKeys(d)
    ensures UniqueKeys(r)
    ensures k in Keys(d) ==> Keys(r) == Keys(d)
    ensures k !in Keys(d) ==> Keys(r) == Keys(d) + [k]
    ensures k in Keys(r) && Get(r, k) == v
    ensures forall k' :: k' != k ==> (k' in Keys(r) <==> k' in Keys(d))
    ensures forall k' :: k' != k && k' in Keys(d) ==> Get(r, k') == Get(d, k')
  {
    if k in Keys(d) then
      var i := IndexOf(d, k);
      var r := d[i := (k, v)];
      assert Keys(r) == Keys(d);
      GetAt(r, i);
      forall k' | k' != k && k' in Keys(d) ensures Get(r, k') == Get(d, k') {
        var j := IndexOf(d, k');
        GetAt(r, j);
      }
      r
    else
      var r := d + [(k, v)];
      KeysAppend(d, k, v);
      GetAt(r, |d|);
      forall k' | k' != k && k' in Keys(d) ensures Get(r, k') == Get(d, k') {
        var j := IndexOf(d, k');
        GetAt(r, j);
        GetAt(d, j);
      }
      r
  }

  /** `d.get(k, default)` after `d[k] = v`. */
  lemma GetOrPut<K(!new), V>(d: Dict<K, V>, k: K, v: V, k': K, default: V)
    requires UniqueKeys(d)
    ensures GetOr(Put(d, k, v), k', default) == if k' == k then v else GetOr(d, k', default)
  {
  }

  /** The last entry of a dictionary is the last key inserted: removing it gives
      a dictionary that the entry's insertion turns back into the whole. */
  lemma SplitLast<K(!new), V>(d: Dict<K, V>)
    requires UniqueKeys(d) && d != []
    ensures UniqueKeys(d[..|d| - 1]) && d[|d| - 1].0 !in Keys(d[..|d| - 1])
    ensures Put(d[..|d| - 1], d[|d| - 1].0, d[|d| - 1].1) == d
  {
  }

  /** Assigning to a new key appends it. */
  lemma PutNew<K(!new), V>(d: Dict<K, V>, k: K, v: V)
    requires UniqueKeys(d) && k !in Keys(d)
    ensures Put(d, k, v) == d + [(k, v)]
  {
  }

  /** Assigning again to the key inserted last replaces its value in place. */
  lemma PutLast<K(!new), V>(d: Dict<K, V>, k: K, v: V, v': V)
    requires UniqueKeys(d) && k !in Keys(d)
    ensures UniqueKeys(d + [(k, v)]) && k in Keys(d + [(k, v)])
    ensures Put(d + [(k, v)], k, v') == d + [(k, v')]
  {
    KeysAppend(d, k, v);
    assert Put(d, k, v) == d + [(k, v)];
    var i := IndexOf(d + [(k, v)], k);
    assert i == |d|;
  }

  /** Looking a key up in a prefix that grows by one entry. */
  lemma GetOrSnoc<K(!new), V>(d: Dict<K, V>, i: nat, k: K, default: V)
    requires UniqueKeys(d) && i < |d|
    ensures UniqueKeys(d[..i + 1]) && UniqueKeys(d[..i]) && d[i].0 !in Keys(d[..i])
    ensures GetOr(d[..i + 1], k, default) == if k == d[i].0 then d[i].1 else GetOr(d[..i], k, default)
  {
  }

  /** Two dictionaries with the same keys, in the same order: one has distinct
      keys exactly when the other has, and a key sits at the same position in both. */
  lemma SameKeys<K(!new), V, W>(a: Dict<K, V>, b: Dict<K, W>, k: K)
    requires Keys(a) == Keys(b) && UniqueKeys(b)
    ensures UniqueKeys(a)
    ensures k in Keys(a) ==> IndexOf(a, k) == IndexOf(b, k)
  {
  }

  /** `sum(d.values())` for a dictionary of counters. */
  function SumValues<K>(d: Dict<K, nat>): nat {
    if d == [] then 0 else SumValues(d[..|d| - 1]) + d[|d| - 1].1
  }

  /** The distinct elements of s, each at its first occurrence: the keys a Python
      dict ends up with when s's elements are inserted one after another. */
  function Dedup<T(==,!new)>(s: seq<T>): (r: seq<T>)
    ensures forall x :: x in r <==> x in s
    ensures forall i, j :: 0 <= i < j < |r| ==> r[i] != r[j]
  {
    if s == [] then []
    else
      var p := Dedup(s[..|s| - 1]);
      var x := s[|s| - 1];
      assert forall y :: y in s <==> y in s[..|s| - 1] || y == x by {
        assert s == s[..|s| - 1] + [x];
      }
      if x in s[..|s| - 1] then p else p + [x]
  }

  lemma DedupAppend<T(!new)>(s: seq<T>, x: T)
    ensures Dedup(s + [x]) == if x in s then Dedup(s) else Dedup(s) + [x]
  {
  }
}
