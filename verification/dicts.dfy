/** Python dictionaries as lists of (key, item) pairs in iteration order. */
module Dicts {

  /** No key occurs twice: the pair list is the item view of an actual dictionary. */
  ghost predicate DistinctKeys<K, V>(d: seq<(K, V)>) {
    forall i, j | 0 <= i < j < |d| :: d[i].0 != d[j].0
  }

  /** `m` never sends two different keys to the same key. */
  ghost predicate Injective<K>(m: map<K, K>) {
    forall a, b | a in m && b in m && a != b :: m[a] != m[b]
  }
}
