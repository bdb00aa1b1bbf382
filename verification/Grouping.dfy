/** groupBy: the elements of a list under their keys, as indices in ascending order. */
module Grouping {
  import opened Common

  function IndicesOf<T, K(==)>(s: seq<T>, key: T -> K, k: K): (r: seq<nat>)
    ensures forall n :: 0 <= n < |r| ==> r[n] < |s| && key(s[r[n]]) == k
  {
    if s == [] then []
    else IndicesOf(s[..|s| - 1], key, k) + if key(s[|s| - 1]) == k then [|s| - 1] else []
  }

  /** How many elements before i share its key. */
  function Rank<T, K(==)>(s: seq<T>, key: T -> K, i: nat): nat
    requires i < |s|
  {
    |IndicesOf(s[..i], key, key(s[i]))|
  }

  lemma IndicesStep<T, K>(s: seq<T>, key: T -> K, k: K, i: nat)
    requires i < |s|
    ensures IndicesOf(s[..i + 1], key, k) == IndicesOf(s[..i], key, k) + if key(s[i]) == k then [i] else []
  {
    assert s[..i + 1][..i] == s[..i];
  }

  lemma {:induction false} IndicesPrefix<T, K>(s: seq<T>, key: T -> K, k: K, i: nat, j: nat)
    requires i <= j <= |s|
    ensures IndicesOf(s[..i], key, k) <= IndicesOf(s[..j], key, k)
    decreases j
  {
    if i < j {
      IndicesPrefix(s, key, k, i, j - 1);
      IndicesStep(s, key, k, j - 1);
    }
  }

  /** Each element is in its group, at its rank. */
  lemma IndexAtRank<T, K>(s: seq<T>, key: T -> K, i: nat)
    requires i < |s|
    ensures Rank(s, key, i) < |IndicesOf(s, key, key(s[i]))|
    ensures IndicesOf(s, key, key(s[i]))[Rank(s, key, i)] == i
  {
    IndicesStep(s, key, key(s[i]), i);
    IndicesPrefix(s, key, key(s[i]), i + 1, |s|);
    assert s[..|s|] == s;
  }

  /** The n-th element of a group has rank n. */
  lemma {:induction false} RankAtIndex<T, K>(s: seq<T>, key: T -> K, k: K, n: nat)
    requires n < |IndicesOf(s, key, k)|
    ensures Rank(s, key, IndicesOf(s, key, k)[n]) == n
  {
    var init := s[..|s| - 1];
    var before := IndicesOf(init, key, k);
    if n < |before| {
      RankAtIndex(init, key, k, n);
      assert init[..before[n]] == s[..before[n]];
    } else {
      assert IndicesOf(s, key, k)[n] == |s| - 1;
    }
  }

  /** Later elements with the same key rank higher. */
  lemma RanksGrow<T, K>(s: seq<T>, key: T -> K, i: nat, j: nat)
    requires i < j < |s| && key(s[i]) == key(s[j])
    ensures Rank(s, key, i) < Rank(s, key, j)
  {
    IndicesStep(s, key, key(s[i]), i);
    IndicesPrefix(s, key, key(s[i]), i + 1, j);
  }

  ghost predicate Groups<T, K(!new)>(s: seq<T>, key: T -> K, keys: seq<K>, groups: map<K, seq<nat>>) {
    && NoDuplicates(keys)
    && (forall k :: k in groups <==> k in keys)
    && (forall k :: k in keys <==> IndicesOf(s, key, k) != [])
    && forall k :: k in groups ==> groups[k] == IndicesOf(s, key, k)
  }

  lemma GroupsStep<T, K(!new)>(s: seq<T>, key: T -> K, i: nat, keys: seq<K>, groups: map<K, seq<nat>>)
    requires i < |s| && Groups(s[..i], key, keys, groups)
    ensures var k := key(s[i]);
            if k in groups then Groups(s[..i + 1], key, keys, groups[k := groups[k] + [i]])
            else Groups(s[..i + 1], key, keys + [k], groups[k := [i]])
  {
    forall k ensures IndicesOf(s[..i + 1], key, k) == IndicesOf(s[..i], key, k) + if key(s[i]) == k then [i] else [] {
      IndicesStep(s, key, k, i);
    }
    if key(s[i]) !in groups {
      assert IndicesOf(s[..i], key, key(s[i])) == [];
    }
  }

  lemma GroupsOfNothing<T, K(!new)>(s: seq<T>, key: T -> K)
    ensures Groups(s[..0], key, [], map[])
  {
  }

  method GroupBy<T, K(==, !new)>(s: seq<T>, key: T -> K) returns (keys: seq<K>, groups: map<K, seq<nat>>)
    ensures Groups(s, key, keys, groups)
  {
    keys, groups := [], map[];
    GroupsOfNothing(s, key);
    for i := 0 to |s|
      invariant Groups(s[..i], key, keys, groups)
    {
      GroupsStep(s, key, i, keys, groups);
      var k := key(s[i]);
      if k in groups {
        groups := groups[k := groups[k] + [i]];
      } else {
        keys, groups := keys + [k], groups[k := [i]];
      }
    }
    assert s[..|s|] == s;
  }
}
