/**
 * A JavaScript `Map`: a finite map that remembers the order in which its keys
 * were first inserted. `keys` is that order, `values` the contents.
 */
module OrderedMaps {
  import opened Wrappers

  datatype OMap<K, V> = OMap(keys: seq<K>, values: map<K, V>)

  ghost predicate Distinct<K>(s: seq<K>) {
    forall i, j :: 0 <= i < j < |s| ==> s[i] != s[j]
  }

  /** The keys listed once each, and exactly the keys of the map. */
  ghost predicate Valid<K(!new), V>(m: OMap<K, V>) {
    Distinct(m.keys) && forall k :: k in m.values <==> k in m.keys
  }

  /** The tail of a duplicate-free sequence is duplicate-free and lacks the head. */
  lemma DistinctTail<K>(s: seq<K>)
    requires Distinct(s) && s != []
    ensures Distinct(s[1..]) && s[0] !in s[1..]
  {
    forall j | 0 <= j < |s| - 1 ensures s[1..][j] != s[0] {
      assert s[1..][j] == s[j + 1];
    }
  }

  /** `new Map()` */
  function Empty<K(==,!new), V>(): (m: OMap<K, V>)
    ensures Valid(m) && m.keys == [] && m.values == map[]
  {
    OMap([], map[])
  }

  /** `m.get(k)` */
  function Get<K(==,!new), V>(m: OMap<K, V>, k: K): (r: Option<V>)
    ensures r.Some? <==> k in m.values
    ensures r.Some? ==> r.value == m.values[k]
  {
    if k in m.values then Some(m.values[k]) else None
  }

  /** `m.set(k, v)`: a new key goes last, an existing key keeps its place. */
  function Put<K(==,!new), V>(m: OMap<K, V>, k: K, v: V): (r: OMap<K, V>)
    requires Valid(m)
    ensures Valid(r)
    ensures r.values == m.values[k := v]
    ensures k in m.values ==> r.keys == m.keys
    ensures k !in m.values ==> r.keys == m.keys + [k]
  {
    if k in m.values then OMap(m.keys, m.values[k := v]) else OMap(m.keys + [k], m.values[k := v])
  }

  /** The sequence `s` with every occurrence of `k` taken out, the others in order. */
  function Without<K(==,!new)>(s: seq<K>, k: K): (r: seq<K>)
    ensures forall x :: x in r <==> x in s && x != k
    ensures Distinct(s) ==> Distinct(r)
    ensures |r| <= |s|
  {
    if s == [] then []
    else if s[0] == k then Without(s[1..], k)
    else
      var rest := Without(s[1..], k);
      assert Distinct(s) ==> Distinct(s[1..]) && s[0] !in s[1..] by {
        if Distinct(s) {
          DistinctTail(s);
        }
      }
      [s[0]] + rest
  }

  /** The position of `k` in `ks`. */
  function IndexOf<K(==)>(ks: seq<K>, k: K): (i: nat)
    requires k in ks
    ensures i < |ks| && ks[i] == k
  {
    if ks[0] == k then 0 else 1 + IndexOf(ks[1..], k)
  }

  /** Taking `k` out distributes over concatenation. */
  lemma {:induction false} WithoutAppend<K(!new)>(a: seq<K>, b: seq<K>, k: K)
    ensures Without(a + b, k) == Without(a, k) + Without(b, k)
    decreases |a|
  {
    if a == [] {
      assert a + b == b;
    } else {
      assert (a + b)[0] == a[0] && (a + b)[1..] == a[1..] + b;
      WithoutAppend(a[1..], b, k);
    }
  }

  /** A sequence without `k` is left as it is. */
  lemma {:induction false} WithoutAbsent<K(!new)>(s: seq<K>, k: K)
    requires k !in s
    ensures Without(s, k) == s
    decreases |s|
  {
    if s != [] {
      WithoutAbsent(s[1..], k);
    }
  }

  /** In a duplicate-free sequence, taking out the key at position i closes the gap there. */
  lemma {:induction false} WithoutAt<K(!new)>(s: seq<K>, i: nat)
    requires Distinct(s) && i < |s|
    ensures Without(s, s[i]) == s[..i] + s[i + 1..]
    decreases i
  {
    DistinctTail(s);
    if i == 0 {
      WithoutAbsent(s[1..], s[0]);
    } else {
      assert s[1..][i - 1] == s[i] && s[0] != s[i];
      WithoutAt(s[1..], i - 1);
      assert s[..i] == [s[0]] + s[1..][..i - 1];
      assert s[i + 1..] == s[1..][i..];
    }
  }

  /** `m.delete(k)`: the other keys keep their order; an absent key changes nothing. */
  function Remove<K(==,!new), V>(m: OMap<K, V>, k: K): (r: OMap<K, V>)
    requires Valid(m)
    ensures Valid(r)
    ensures r.values == m.values - {k}
    ensures k !in m.values ==> r == m
    ensures k in m.values ==> r.keys == Without(m.keys, k)
  {
    if k in m.values then OMap(Without(m.keys, k), m.values - {k})
    else m
  }

  /** Deleting a present key closes the gap at its position; the other keys keep their order. */
  lemma RemoveKeepsOrder<K(!new), V>(m: OMap<K, V>, k: K)
    requires Valid(m) && k in m.values
    ensures Remove(m, k).keys == m.keys[..IndexOf(m.keys, k)] + m.keys[IndexOf(m.keys, k) + 1..]
  {
    WithoutIndexOf(m.keys, k);
  }

  /** Taking a listed key out of a duplicate-free order cuts out its one position. */
  lemma WithoutIndexOf<K(!new)>(ks: seq<K>, k: K)
    requires Distinct(ks) && k in ks
    ensures Without(ks, k) == ks[..IndexOf(ks, k)] + ks[IndexOf(ks, k) + 1..]
  {
    WithoutAt(ks, IndexOf(ks, k));
  }
}
