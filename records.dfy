/** A JavaScript object used as a record from keys to values, updated with
    the spread idiom `{...prev, [key]: value}`. It is an association list:
    entries keep the order in which their keys were first set. */
module Records {
  import opened Wrappers
  import opened Seqs

  /** The keys in entry order (`Object.keys`). */
  function Keys<K, V>(r: seq<(K, V)>): (ks: seq<K>)
    ensures |ks| == |r|
    ensures forall i :: 0 <= i < |r| ==> ks[i] == r[i].0
  {
    if r == [] then [] else [r[0].0] + Keys(r[1..])
  }

  predicate UniqueKeys<K(==), V>(r: seq<(K, V)>)
  {
    NoDuplicates(Keys(r))
  }

  /** Dropping the first entry keeps the keys unique, and its key is not
      among the rest. */
  lemma UniqueTail<K, V>(r: seq<(K, V)>)
    requires UniqueKeys(r) && r != []
    ensures UniqueKeys(r[1..])
    ensures r[0].0 !in Keys(r[1..])
  {
    var ks := Keys(r);
    forall i, j | 0 <= i < j < |r| - 1 ensures Keys(r[1..])[i] != Keys(r[1..])[j] {
      assert ks[i + 1] != ks[j + 1];
    }
    forall k | 0 <= k < |r| - 1 ensures Keys(r[1..])[k] != r[0].0 {
      assert ks[0] != ks[k + 1];
    }
  }

  /** `record[key]`: undefined for a key never set. */
  function Lookup<K(==), V(==)>(r: seq<(K, V)>, key: K): (v: Option<V>)
    ensures v.None? <==> key !in Keys(r)
    ensures v.Some? ==> exists i :: 0 <= i < |r| && r[i] == (key, v.value)
  {
    if r == [] then None
    else if r[0].0 == key then (assert r[0] == (key, r[0].1); Some(r[0].1))
    else
      var v := Lookup(r[1..], key);
      if v.Some? then
        var i :| 0 <= i < |r| - 1 && r[1..][i] == (key, v.value);
        assert r[i + 1] == (key, v.value);
        v
      else v
  }

  /** `{...prev, [key]: value}`: a key already present keeps its place and
      takes the new value, a new key is added at the end. */
  function Set<K(==), V>(r: seq<(K, V)>, key: K, value: V): (s: seq<(K, V)>)
    ensures key in Keys(r) ==> Keys(s) == Keys(r)
    ensures key !in Keys(r) ==> Keys(s) == Keys(r) + [key]
  {
    if r == [] then [(key, value)]
    else if r[0].0 == key then [(key, value)] + r[1..]
    else [r[0]] + Set(r[1..], key, value)
  }

  /** After the update the key reads the new value and every other key
      reads what it read before. */
  lemma {:induction false} SetLookup<K, V>(r: seq<(K, V)>, key: K, value: V, other: K)
    ensures Lookup(Set(r, key, value), key) == Some(value)
    ensures other != key ==> Lookup(Set(r, key, value), other) == Lookup(r, other)
  {
    if r != [] && r[0].0 != key {
      SetLookup(r[1..], key, value, other);
    }
  }

  /** The update never introduces a second entry for a key. */
  lemma SetUnique<K, V>(r: seq<(K, V)>, key: K, value: V)
    requires UniqueKeys(r)
    ensures UniqueKeys(Set(r, key, value))
  {
    var ks := Keys(r);
    if key !in ks {
      var ks' := ks + [key];
      forall i, j | 0 <= i < j < |ks'| ensures ks'[i] != ks'[j] {
        if j == |ks| { assert ks'[i] == ks[i] && ks[i] in ks; }
      }
    }
  }
}
